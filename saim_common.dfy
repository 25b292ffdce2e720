/** The acquisition sweep of the SAIM plugin: the cubic calibration that maps an
    incidence angle to a TIRF motor position, and the sweep of angles from the
    start angle to its mirror image that an acquisition walks through. */
module SAIMCommon {

  /** The calibration polynomial, stored under the preference keys coeff3 .. coeff0:
      position = c3 * angle^3 + c2 * angle^2 + c1 * angle + c0. */
  datatype Coefficients = Coefficients(c3: real, c2: real, c1: real, c0: real)

  function Cubic(c: Coefficients, angle: real): real
  {
    c.c3 * (angle * angle * angle) + c.c2 * (angle * angle) + c.c1 * angle + c.c0
  }

  /** Java's Math.round: the nearest integer, halves rounded up. */
  function JavaRound(x: real): (r: int)
    ensures r as real - 0.5 <= x < r as real + 0.5
  {
    (x + 0.5).Floor
  }

  /** The nearest-integer property determines Math.round's result. */
  lemma JavaRoundUnique(x: real, n: int)
    requires n as real - 0.5 <= x < n as real + 0.5
    ensures JavaRound(x) == n
  {
    var r := JavaRound(x);
    assert r as real - 0.5 <= x < r as real + 0.5;
    assert n - 1 < r < n + 1;
  }

  /** The motor position for an angle: the calibration cubic rounded to the
      nearest integer, since the motor accepts only whole positions. */
  function TirfPosFromAngle(c: Coefficients, angle: real): (pos: int)
    ensures pos as real - 0.5 <= Cubic(c, angle) < pos as real + 0.5
  {
    JavaRound(Cubic(c, angle))
  }

  /** A cubic value exactly halfway between two positions goes to the upper one. */
  lemma {:induction false} HalfwayRoundsUp(c: Coefficients, angle: real, n: int)
    requires Cubic(c, angle) == n as real + 0.5
    ensures TirfPosFromAngle(c, angle) == n + 1
  {
    JavaRoundUnique(Cubic(c, angle), n + 1);
  }

  /** Java's integer part of a quotient (rounds toward zero). */
  function Trunc(x: real): int
  {
    if x >= 0.0 then x.Floor else -((-x).Floor)
  }

  /** Whether Java's floating-point remainder x % y is 0. Java computes
      x - Trunc(x / y) * y; a zero divisor gives NaN, which is never equal to 0. */
  predicate RemainderIsZero(x: real, y: real)
    ensures RemainderIsZero(x, y) ==> y != 0.0
  {
    y != 0.0 && x - (Trunc(x / y) as real) * y == 0.0
  }

  /** The remainder is zero exactly when x is a whole multiple of a non-zero y. */
  lemma RemainderZeroIffMultiple(x: real, y: real)
    ensures RemainderIsZero(x, y) <==> y != 0.0 && (x / y).Floor as real == x / y
  {
    if y != 0.0 {
      var q := x / y;
      assert x == q * y;
      var t := Trunc(q);
      if q >= 0.0 {
        assert t == q.Floor;
      } else {
        assert t == -((-q).Floor);
        if t as real == q {
          assert (-q).Floor as real == -q;
          assert q.Floor == t;
        }
        if q.Floor as real == q {
          assert (-q).Floor == -q.Floor;
        }
      }
      assert (x - t as real * y == 0.0) <==> (q - t as real) * y == 0.0;
    }
  }

  const StartAngleError := "Start angle should be <= 0"
  const DivisibilityError := "Start angle is not divisible by the angle step size"

  /** The acquisition preferences that runAcquisition reads: start angle, angle
      step size, whether to image 0 degrees twice, and the calibration. */
  datatype Settings = Settings(startAngle: real, angleStepSize: real, doubleZero: bool,
                               coeffs: Coefficients)

  /** One frame of the acquisition: the motor is set to position, an image is
      snapped, tagged with angle and added to the acquisition as frame frameNr. */
  datatype Frame = Frame(frameNr: nat, angle: real, position: int)

  datatype Acquisition =
    | Rejected(message: string)
      /** Both checks pass but the step is negative: the sweep loop never ends. */
    | Endless
      /** The acquisition name, the frame count it was opened with, and the frames. */
    | Completed(name: string, nrFrames: int, frames: seq<Frame>)

  /** The frame count given to openAcquisition, computed as runAcquisition does. */
  function NrFrames(s: Settings): (nrFrames: int)
    requires s.angleStepSize != 0.0
    ensures var extra := if s.doubleZero then 2 else 1;
            var nrAngles := (if s.startAngle < 0.0 then -s.startAngle else s.startAngle) * 2.0
                            / s.angleStepSize;
            (nrFrames - extra) as real - 0.5 <= nrAngles < (nrFrames - extra) as real + 0.5
  {
    var nrAngles := JavaRound((if s.startAngle < 0.0 then -s.startAngle else s.startAngle) * 2.0
                              / s.angleStepSize);
    if s.doubleZero then nrAngles + 2 else nrAngles + 1
  }

  /** n * d as repeated addition of d (see TimesIsProduct), which lets the
      sweep be reasoned about without multiplication. */
  function Times(n: int, d: real): real
    decreases if n < 0 then -n else n
  {
    if n == 0 then 0.0 else if n > 0 then Times(n - 1, d) + d else Times(n + 1, d) - d
  }

  lemma {:induction false} TimesIsProduct(n: int, d: real)
    ensures Times(n, d) == n as real * d
    decreases if n < 0 then -n else n
  {
    if n > 0 {
      TimesIsProduct(n - 1, d);
    } else if n < 0 {
      TimesIsProduct(n + 1, d);
    }
  }

  lemma TimesSucc(n: int, d: real)
    ensures Times(n + 1, d) == Times(n, d) + d
  {
  }

  lemma {:induction false} TimesAdd(n: int, m: int, d: real)
    ensures Times(n + m, d) == Times(n, d) + Times(m, d)
    decreases if m < 0 then -m else m
  {
    if m > 0 {
      TimesAdd(n, m - 1, d);
      TimesSucc(n + m - 1, d);
    } else if m < 0 {
      TimesAdd(n, m + 1, d);
      TimesSucc(n + m, d);
    }
  }

  lemma {:induction false} TimesSign(m: int, d: real)
    requires d > 0.0
    ensures m > 0 ==> Times(m, d) > 0.0
    ensures m < 0 ==> Times(m, d) < 0.0
    decreases if m < 0 then -m else m
  {
    if m > 0 {
      TimesSign(m - 1, d);
    } else if m < 0 {
      TimesSign(m + 1, d);
    }
  }

  /** With a positive step, multiples of it compare as their factors do. */
  lemma TimesMonotone(n: int, m: int, d: real)
    requires d > 0.0
    ensures Times(n, d) <= Times(m, d) <==> n <= m
    ensures Times(n, d) == Times(m, d) <==> n == m
    ensures Times(n, d) == 0.0 <==> n == 0
  {
    TimesAdd(n, m - n, d);
    TimesSign(m - n, d);
    TimesSign(n, d);
  }

  /** Settings whose sweep runs to completion. */
  predicate Sweepable(s: Settings)
  {
    s.startAngle <= 0.0 && s.angleStepSize > 0.0 && RemainderIsZero(s.startAngle, s.angleStepSize)
  }

  /** The number of steps from the start angle up to 0. */
  function StepsToZero(s: Settings): (k: nat)
    requires Sweepable(s)
    ensures Times(k, s.angleStepSize) == -s.startAngle
  {
    RemainderZeroIffMultiple(s.startAngle, s.angleStepSize);
    var q := s.startAngle / s.angleStepSize;
    assert q <= 0.0;
    assert s.startAngle == q * s.angleStepSize;
    assert q.Floor as real == q;
    var k := -q.Floor;
    assert (-q).Floor == k;
    TimesIsProduct(k, s.angleStepSize);
    assert Times(k, s.angleStepSize) == -q * s.angleStepSize;
    k
  }

  /** The signed number of steps between 0 and the angle of frame i: i - k, where
      with doubleZero every frame after the first 0 degree frame lags one step. */
  function StepIndex(s: Settings, i: nat): int
    requires Sweepable(s)
  {
    var k := StepsToZero(s);
    if s.doubleZero && i > k then i - k - 1 else i - k
  }

  /** The number of frames of a sweep: 2k + 1, one more with doubleZero. */
  function SweepLength(s: Settings): nat
    requires Sweepable(s)
  {
    2 * StepsToZero(s) + (if s.doubleZero then 2 else 1)
  }

  /** The angles of a sweep in closed form: frame i is StepIndex(s, i) steps from 0. */
  function SweepAngles(s: Settings): (angles: seq<real>)
    requires Sweepable(s)
  {
    seq(SweepLength(s), (i: nat) => Times(StepIndex(s, i), s.angleStepSize))
  }

  /** The frames of a sweep: each angle, numbered in order, with its motor position. */
  function SweepFrames(s: Settings): seq<Frame>
    requires Sweepable(s)
  {
    var angles := SweepAngles(s);
    seq(|angles|, (i: nat) requires i < |angles| =>
      Frame(i, angles[i], TirfPosFromAngle(s.coeffs, angles[i])))
  }

  /** What runAcquisition does with the given settings. */
  function AcquisitionOf(s: Settings, name: string): Acquisition
  {
    if s.startAngle > 0.0 then Rejected(StartAngleError)
    else if !RemainderIsZero(s.startAngle, s.angleStepSize) then Rejected(DivisibilityError)
    else if s.angleStepSize < 0.0 then Endless
    else Completed(name, NrFrames(s), SweepFrames(s))
  }

  /** The frame count runAcquisition opens the acquisition with equals the number
      of frames the sweep adds: round(2 |start| / step) + 1, or + 2 with doubleZero. */
  lemma {:induction false} FrameCountMatchesSweep(s: Settings)
    requires Sweepable(s)
    ensures NrFrames(s) == SweepLength(s) == |SweepFrames(s)|
  {
    var k := StepsToZero(s);
    var d := s.angleStepSize;
    TimesIsProduct(k, d);
    var abs := if s.startAngle < 0.0 then -s.startAngle else s.startAngle;
    assert abs == k as real * d;
    assert abs * 2.0 / d == (2 * k) as real;
    JavaRoundUnique(abs * 2.0 / d, 2 * k);
  }

  /** The sweep starts at the start angle and ends at its mirror image. */
  lemma SweepEndpoints(s: Settings)
    requires Sweepable(s)
    ensures SweepAngles(s)[0] == s.startAngle
    ensures SweepAngles(s)[SweepLength(s) - 1] == -s.startAngle
  {
    var k := StepsToZero(s);
    assert StepIndex(s, 0) == -(k as int);
    assert StepIndex(s, SweepLength(s) - 1) == k;
    TimesAdd(k, -(k as int), s.angleStepSize);
  }

  /** The angles strictly increase, except that with doubleZero the frames k and
      k + 1 (the two 0 degree frames) share their angle; so they never decrease. */
  lemma SweepIncreasing(s: Settings, i: nat, j: nat)
    requires Sweepable(s)
    requires i < j < SweepLength(s)
    ensures SweepAngles(s)[i] <= SweepAngles(s)[j]
    ensures SweepAngles(s)[i] == SweepAngles(s)[j] <==>
              s.doubleZero && i == StepsToZero(s) && j == i + 1
  {
    TimesMonotone(StepIndex(s, i), StepIndex(s, j), s.angleStepSize);
  }

  /** 0 degrees is visited exactly at frame k, and with doubleZero also at frame k + 1. */
  lemma SweepZeroFrames(s: Settings, i: nat)
    requires Sweepable(s)
    requires i < SweepLength(s)
    ensures SweepAngles(s)[i] == 0.0 <==>
              i == StepsToZero(s) || (s.doubleZero && i == StepsToZero(s) + 1)
  {
    TimesMonotone(StepIndex(s, i), 0, s.angleStepSize);
  }

  /** The state of runAcquisition's loop: the loop variable and the doubled flag. */
  datatype LoopState = LoopState(angle: real, doubled: bool)

  /** One pass through the loop's update: repeat 0 once when doubleZero, then step. */
  function Advance(s: Settings, ls: LoopState): (next: LoopState)
    ensures s.doubleZero && !ls.doubled && ls.angle == 0.0 ==> next == LoopState(0.0, true)
    ensures !(s.doubleZero && !ls.doubled && ls.angle == 0.0) ==>
              next == LoopState(ls.angle + s.angleStepSize, ls.doubled)
  {
    var reset := s.doubleZero && !ls.doubled && ls.angle == 0.0;
    var angle := if reset then -s.angleStepSize else ls.angle;
    LoopState(angle + s.angleStepSize, ls.doubled || reset)
  }

  /** The loop state after n passes. */
  function Iterate(s: Settings, n: nat): (ls: LoopState)
    ensures ls.doubled ==> s.doubleZero
  {
    if n == 0 then LoopState(s.startAngle, false) else Advance(s, Iterate(s, n - 1))
  }

  /** With a non-positive start angle and a negative step the loop condition
      angle <= -startAngle holds after every number of passes: the loop never ends. */
  lemma {:induction false} NegativeStepNeverEnds(s: Settings, n: nat)
    requires s.startAngle <= 0.0 && s.angleStepSize < 0.0
    ensures Iterate(s, n).angle <= 0.0 <= -s.startAngle
  {
    if n > 0 {
      NegativeStepNeverEnds(s, n - 1);
    }
  }

  /** The loop state after n passes of an accepted sweep: the angle is
      StepIndex(s, n) steps from 0, and 0 has been repeated once n is past it. */
  lemma {:induction false} IterateState(s: Settings, n: nat)
    requires Sweepable(s)
    ensures Iterate(s, n) ==
              LoopState(Times(StepIndex(s, n), s.angleStepSize), s.doubleZero && n > StepsToZero(s))
  {
    var k := StepsToZero(s);
    var d := s.angleStepSize;
    if n == 0 {
      TimesAdd(k, -(k as int), d);
    } else {
      IterateState(s, n - 1);
      var m := StepIndex(s, n - 1);
      TimesMonotone(m, 0, d);
      if s.doubleZero && n - 1 == k {
        assert m == 0;
      } else {
        assert StepIndex(s, n) == m + 1;
        TimesSucc(m, d);
      }
    }
  }

  /** The loop of runAcquisition visits exactly the sweep's angles: pass n < the
      sweep length is at the n-th angle and within the loop bound, and the pass
      after the last frame is past the bound, so the loop stops there. */
  lemma LoopFollowsSweep(s: Settings, n: nat)
    requires Sweepable(s)
    requires n <= SweepLength(s)
    ensures n < SweepLength(s) ==>
              Iterate(s, n).angle == SweepAngles(s)[n] && Iterate(s, n).angle <= -s.startAngle
    ensures n == SweepLength(s) ==> Iterate(s, n).angle > -s.startAngle
  {
    var k := StepsToZero(s);
    IterateState(s, n);
    TimesMonotone(StepIndex(s, n), k, s.angleStepSize);
  }

  /** Appending the next frame of the sweep to a prefix of the sweep. */
  lemma SweepFramesExtend(s: Settings, frames: seq<Frame>, n: nat, angle: real)
    requires Sweepable(s)
    requires n < SweepLength(s)
    requires frames == SweepFrames(s)[..n]
    requires angle == SweepAngles(s)[n]
    ensures frames + [Frame(n, angle, TirfPosFromAngle(s.coeffs, angle))] == SweepFrames(s)[..n + 1]
  {
    assert SweepFrames(s)[n] == Frame(n, angle, TirfPosFromAngle(s.coeffs, angle));
  }

  /** When the loop of runAcquisition exits, its frames are the whole sweep. */
  lemma SweepFramesDone(s: Settings, frames: seq<Frame>, frameNr: nat, j: int, doubled: bool)
    requires Sweepable(s)
    requires j == 2 * StepsToZero(s) + 1
    requires frameNr == j + (if doubled then 1 else 0)
    requires doubled ==> s.doubleZero
    requires s.doubleZero && !doubled ==> j <= StepsToZero(s)
    requires frames == SweepFrames(s)[..frameNr]
    ensures frames == SweepFrames(s)
  {
    assert frameNr == |SweepFrames(s)|;
  }

  /** The loop of runAcquisition: from the start angle up to its mirror image in
      steps of angleStepSize, revisiting 0 degrees once when doubleZero is set by
      resetting the loop variable to -angleStepSize. One frame per pass. */
  method Sweep(s: Settings) returns (frames: seq<Frame>)
    requires Sweepable(s)
    ensures frames == SweepFrames(s)
  {
    var startAngle, angleStepSize, doubleZero := s.startAngle, s.angleStepSize, s.doubleZero;
    ghost var k := StepsToZero(s);
    TimesAdd(k, -(k as int), angleStepSize);
    ghost var j: int := 0;
    frames := [];
    var doubled := false;
    var frameNr: nat := 0;
    var angle := startAngle;
    while angle <= -startAngle
      invariant 0 <= j <= 2 * k + 1
      invariant angle == Times(j - k, angleStepSize)
      invariant frameNr == j + (if doubled then 1 else 0)
      invariant doubled ==> doubleZero && j >= k
      invariant doubleZero && !doubled ==> j <= k
      invariant frames == SweepFrames(s)[..frameNr]
      decreases 2 * k + 1 - j, if doubled then 0 else 1
    {
      TimesMonotone(j - k, k, angleStepSize);
      TimesMonotone(j - k, 0, angleStepSize);
      assert StepIndex(s, frameNr) == j - k;
      var pos := TirfPosFromAngle(s.coeffs, angle);
      SweepFramesExtend(s, frames, frameNr, angle);
      frames := frames + [Frame(frameNr, angle, pos)];
      frameNr := frameNr + 1;
      if doubleZero && !doubled && angle == 0.0 {
        angle := -angleStepSize;
        doubled := true;
      } else {
        TimesSucc(j - k, angleStepSize);
        j := j + 1;
      }
      angle := angle + angleStepSize;
    }
    TimesMonotone(j - k, k, angleStepSize);
    SweepFramesDone(s, frames, frameNr, j, doubled);
  }

  /** runAcquisition: validate the settings, open the acquisition with the computed
      frame count, and walk the sweep, commanding one motor position per frame. */
  method RunAcquisition(s: Settings, name: string) returns (r: Acquisition)
    ensures r == AcquisitionOf(s, name)
    ensures r == Rejected(StartAngleError) <==> s.startAngle > 0.0
    ensures r == Rejected(DivisibilityError) <==>
              s.startAngle <= 0.0 && !RemainderIsZero(s.startAngle, s.angleStepSize)
    ensures r.Completed? <==> Sweepable(s)
    ensures r.Completed? ==> r.name == name && r.nrFrames == |r.frames|
    ensures r.Completed? ==> forall i :: 0 <= i < |r.frames| ==>
              r.frames[i].frameNr == i &&
              r.frames[i].position == TirfPosFromAngle(s.coeffs, r.frames[i].angle)
  {
    var startAngle := s.startAngle;
    if startAngle > 0.0 {
      return Rejected(StartAngleError);
    }
    var angleStepSize := s.angleStepSize;
    if !RemainderIsZero(startAngle, angleStepSize) {
      return Rejected(DivisibilityError);
    }
    if angleStepSize < 0.0 {
      // The Java loop would run forever here: see NegativeStepNeverEnds.
      return Endless;
    }
    var absStart := if startAngle < 0.0 then -startAngle else startAngle;
    var nrAngles := JavaRound(absStart * 2.0 / angleStepSize);
    var nrFrames := nrAngles + 1;
    if s.doubleZero {
      nrFrames := nrAngles + 2;
    }
    // openAcquisition(name, rootDir, 1, 1, nrFrames, 1, show, save)
    FrameCountMatchesSweep(s);
    var frames := Sweep(s);
    return Completed(name, nrFrames, frames);
  }
}
