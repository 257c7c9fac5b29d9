/** The pendulum game: a damped pendulum integrated once per animation
    frame, whose length is a slider value. The animation effect owns the
    angle and the angular velocity, so every re-run of the effect (a length
    change or a play/pause toggle) starts the swing again from π/4 at rest;
    only the previous frame's timestamp outlives a re-run. At most one
    animation-frame callback is pending at any time, and `pending` says
    which. Time stamps are exact reals in milliseconds, and the sine is a
    parameter. */
module Pendulum {
  import opened Records

  /** `Math.PI` to the digits JavaScript prints. */
  const Pi: real := 3.141592653589793
  const Gravity: real := 9.8
  const Damping: real := 0.995

  /** The swing's starting angle, in radians from the vertical. */
  const StartAngle: real := Pi / 4.0

  /** The length slider's range and starting value, in pixels. */
  const MinLength: int := 50
  const MaxLength: int := 150
  const DefaultLength: int := 100

  type Length = n: int | MinLength <= n <= MaxLength witness DefaultLength

  /** The animation-frame callback waiting to run, if any: the effect's
      animation step, or one of the two frames the reset button queues. */
  datatype Pending = NoFrame | AnimateFrame | ResetFirst | ResetSecond

  /** `prev` is the previous frame's timestamp (undefined when absent) and
      `shown` says whether the pendulum is drawn on the canvas. */
  datatype State = State(
    angle: real,
    velocity: real,
    prev: Option<real>,
    playing: bool,
    length: Length,
    pending: Pending,
    shown: bool)

  // ---------------------------------------------------------------------
  // Physics
  // ---------------------------------------------------------------------

  /** The angular acceleration at `angle` for a pendulum of length `length`. */
  function Acceleration(angle: real, length: Length, sin: real -> real): real {
    (-Gravity / length as real) * sin(angle)
  }

  /** One integration step of `dt` seconds: the velocity takes the
      acceleration, is damped, and then moves the angle. */
  function Integrate(angle: real, velocity: real, length: Length, dt: real, sin: real -> real): (r: (real, real))
    ensures r.1 == (velocity + Acceleration(angle, length, sin) * dt) * Damping
    ensures r.0 == angle + r.1 * dt
  {
    var v := (velocity + Acceleration(angle, length, sin) * dt) * Damping;
    (angle + v * dt, v)
  }

  /** Where a sine in [-1, 1] puts the acceleration: at most g/L, and so at
      most g/50, in size. */
  lemma AccelerationBound(angle: real, length: Length, sin: real -> real)
    requires -1.0 <= sin(angle) <= 1.0
    ensures -Gravity / length as real <= Acceleration(angle, length, sin) <= Gravity / length as real
    ensures Gravity / length as real <= Gravity / MinLength as real
  {
    var k := Gravity / length as real;
    assert Acceleration(angle, length, sin) == -k * sin(angle);
    assert 0.0 < k;
    assert -k * sin(angle) <= k by {
      assert k * (1.0 + sin(angle)) >= 0.0;
    }
    assert -k <= -k * sin(angle) by {
      assert k * (1.0 - sin(angle)) >= 0.0;
    }
    assert k * length as real == Gravity;
  }

  /** Two frames with the same timestamp leave the angle alone and only
      damp the velocity. */
  lemma ZeroStepOnlyDamps(angle: real, velocity: real, length: Length, sin: real -> real)
    ensures Integrate(angle, velocity, length, 0.0, sin) == (angle, velocity * Damping)
  {
  }

  /** With no restoring force (the bob hangs straight down) each step keeps
      the velocity's sign and shrinks it by the damping factor, and a bob
      at rest there stays at rest. */
  lemma DampingAtEquilibrium(angle: real, velocity: real, length: Length, dt: real, sin: real -> real)
    requires sin(angle) == 0.0
    ensures Integrate(angle, velocity, length, dt, sin).1 == velocity * Damping
    ensures velocity != 0.0 ==> Abs(Integrate(angle, velocity, length, dt, sin).1) < Abs(velocity)
    ensures velocity == 0.0 ==> Integrate(angle, velocity, length, dt, sin) == (angle, 0.0)
  {
    assert Acceleration(angle, length, sin) == 0.0;
  }

  /** The bob sits `length` pixels from the pivot, along the string. */
  function Bob(centerX: real, centerY: real, angle: real, length: Length,
               sin: real -> real, cos: real -> real): (real, real) {
    (centerX + length as real * sin(angle), centerY + length as real * cos(angle))
  }

  lemma BobOnCircle(centerX: real, centerY: real, angle: real, length: Length,
                    sin: real -> real, cos: real -> real)
    requires sin(angle) * sin(angle) + cos(angle) * cos(angle) == 1.0
    ensures var (x, y) := Bob(centerX, centerY, angle, length, sin, cos);
            (x - centerX) * (x - centerX) + (y - centerY) * (y - centerY) == length as real * length as real
  {
    var l, s, c := length as real, sin(angle), cos(angle);
    assert (l * s) * (l * s) + (l * c) * (l * c) == l * l * (s * s + c * c);
  }

  // ---------------------------------------------------------------------
  // The component
  // ---------------------------------------------------------------------

  /** The effect's run: new angle and velocity, a fresh animation request,
      and a cleared canvas (assigning the canvas size resets its bitmap
      even when the size is unchanged, as the HTML Standard's canvas
      element section requires). The previous timestamp survives. */
  function Restart(s: State, length: Length, playing: bool): (r: State)
    ensures r.angle == StartAngle && r.velocity == 0.0
    ensures r.prev == s.prev && r.pending == AnimateFrame && !r.shown
    ensures r.length == length && r.playing == playing
  {
    State(StartAngle, 0.0, s.prev, playing, length, AnimateFrame, false)
  }

  /** The page after mounting: playing, length 100, first frame requested. */
  function Mount(): State {
    State(StartAngle, 0.0, None, true, DefaultLength, AnimateFrame, false)
  }

  /** The pending callback runs at timestamp `time` (milliseconds). */
  function OnFrame(s: State, time: real, sin: real -> real): (r: State)
    ensures r.playing == s.playing && r.length == s.length
    // no callback, nothing happens
    ensures s.pending == NoFrame ==> r == s
    // paused: forget the timestamp and stop asking for frames
    ensures s.pending == AnimateFrame && !s.playing ==>
              r == s.(prev := None, pending := NoFrame)
    // first playing frame: only record the timestamp
    ensures s.pending == AnimateFrame && s.playing && s.prev.None? ==>
              r == s.(prev := Some(time))
    // later playing frames: integrate over the elapsed seconds and draw
    ensures s.pending == AnimateFrame && s.playing && s.prev.Some? ==>
              && (r.angle, r.velocity) == Integrate(s.angle, s.velocity, s.length, (time - s.prev.value) / 1000.0, sin)
              && r.prev == Some(time) && r.pending == AnimateFrame && r.shown
    // the reset button's two frames: record the timestamp, then clear the
    // canvas, record again and request nothing more
    ensures s.pending == ResetFirst ==> r == s.(prev := Some(time), pending := ResetSecond)
    ensures s.pending == ResetSecond ==> r == s.(prev := Some(time), pending := NoFrame, shown := false)
  {
    match s.pending
    case NoFrame => s
    case AnimateFrame =>
      if !s.playing then s.(prev := None, pending := NoFrame)
      else if s.prev.None? then s.(prev := Some(time))
      else
        var dt := (time - s.prev.value) / 1000.0;
        var (angle, velocity) := Integrate(s.angle, s.velocity, s.length, dt, sin);
        s.(angle := angle, velocity := velocity, prev := Some(time), shown := true)
    case ResetFirst => s.(prev := Some(time), pending := ResetSecond)
    case ResetSecond => s.(prev := Some(time), pending := NoFrame, shown := false)
  }

  /** The swing from mounting: the first frame only takes a timestamp, so
      the bob stays at π/4; a later second frame, with the sine of π/4
      positive, starts it moving back towards the vertical. */
  lemma FirstFramesFromMount(t1: real, t2: real, sin: real -> real)
    requires t1 < t2 && sin(StartAngle) > 0.0
    ensures OnFrame(Mount(), t1, sin).angle == StartAngle
    ensures OnFrame(Mount(), t1, sin).prev == Some(t1)
    ensures OnFrame(OnFrame(Mount(), t1, sin), t2, sin).velocity < 0.0
    ensures OnFrame(OnFrame(Mount(), t1, sin), t2, sin).angle < StartAngle
    ensures OnFrame(OnFrame(Mount(), t1, sin), t2, sin).shown
  {
    var dt := (t2 - t1) / 1000.0;
    var acc := Acceleration(StartAngle, DefaultLength, sin);
    assert acc < 0.0 by {
      assert -Gravity / DefaultLength as real < 0.0;
    }
    var v := (0.0 + acc * dt) * Damping;
    assert acc * dt < 0.0;
    assert v < 0.0;
    assert v * dt < 0.0;
  }

  /** Moving the slider re-runs the effect only when the value changes. */
  function SetLength(s: State, length: Length): (r: State)
    ensures length == s.length ==> r == s
    ensures length != s.length ==> r == Restart(s, length, s.playing)
  {
    if length == s.length then s else Restart(s, length, s.playing)
  }

  /** Play/Pause flips the flag, which re-runs the effect. */
  function TogglePlay(s: State): (r: State)
    ensures r == Restart(s, s.length, !s.playing)
  {
    Restart(s, s.length, !s.playing)
  }

  /** The reset button: set playing, cancel the pending frame and queue the
      two reset frames. When already playing the flag does not change, the
      effect does not re-run, and the two reset frames are what remains;
      when paused the effect re-runs and its clean-up cancels them. */
  function Reset(s: State): (r: State)
    ensures r.playing
    ensures s.playing ==> r == s.(pending := ResetFirst)
    ensures !s.playing ==> r == Restart(s, s.length, true)
  {
    if s.playing then s.(pending := ResetFirst) else Restart(s, s.length, true)
  }

  datatype Event = Frame(time: real) | Slide(length: Length) | PlayPause | ResetButton

  function Step(s: State, e: Event, sin: real -> real): State {
    match e
    case Frame(time) => OnFrame(s, time, sin)
    case Slide(length) => SetLength(s, length)
    case PlayPause => TogglePlay(s)
    case ResetButton => Reset(s)
  }

  function Run(s: State, es: seq<Event>, sin: real -> real): State {
    if |es| == 0 then s else Step(Run(s, es[..|es| - 1], sin), es[|es| - 1], sin)
  }

  /** What every reachable state keeps: nothing is drawn while paused, the
      reset frames only exist while playing, and a paused component that
      has stopped asking for frames has forgotten its timestamp. */
  predicate Inv(s: State) {
    && (s.shown ==> s.playing)
    && (s.pending == ResetFirst || s.pending == ResetSecond ==> s.playing)
    && (!s.playing && s.pending == NoFrame ==> s.prev.None?)
  }

  lemma StepPreservesInv(s: State, e: Event, sin: real -> real)
    requires Inv(s)
    ensures Inv(Step(s, e, sin))
  {
  }

  lemma {:induction false} RunPreservesInv(es: seq<Event>, sin: real -> real)
    ensures Inv(Run(Mount(), es, sin))
  {
    if |es| > 0 {
      RunPreservesInv(es[..|es| - 1], sin);
      StepPreservesInv(Run(Mount(), es[..|es| - 1], sin), es[|es| - 1], sin);
    }
  }

  /** Pausing and resuming once the paused frame has run starts the swing
      over from π/4 at rest, and the first frame after resuming only takes
      a timestamp: the time spent paused never becomes one huge step. */
  lemma ResumeStartsFresh(s: State, t1: real, t2: real, t3: real, sin: real -> real)
    requires s.playing
    ensures var paused := OnFrame(TogglePlay(s), t1, sin);
            && !paused.playing && paused.pending == NoFrame && paused.prev.None?
            && var resumed := OnFrame(TogglePlay(paused), t2, sin);
               && resumed.angle == StartAngle && resumed.velocity == 0.0
               && resumed.prev == Some(t2) && !resumed.shown
               && var next := OnFrame(resumed, t3, sin);
                  next.velocity == Integrate(StartAngle, 0.0, s.length, (t3 - t2) / 1000.0, sin).1
  {
  }

  /** A run of frames at the given timestamps. */
  function Frames(s: State, ts: seq<real>, sin: real -> real): State {
    if |ts| == 0 then s else OnFrame(Frames(s, ts[..|ts| - 1], sin), ts[|ts| - 1], sin)
  }

  /** Reset while playing: the two reset frames take timestamps and clear
      the canvas, and then no frame is pending any more, so the swing is
      neither advanced nor drawn however many frames follow, while the
      button still reads "Pause". */
  lemma {:induction false} ResetWhilePlayingFreezes(s: State, t1: real, t2: real, ts: seq<real>, sin: real -> real)
    requires s.playing
    ensures var frozen := OnFrame(OnFrame(Reset(s), t1, sin), t2, sin);
            && frozen == s.(prev := Some(t2), pending := NoFrame, shown := false)
            && Frames(frozen, ts, sin) == frozen
  {
    var frozen := OnFrame(OnFrame(Reset(s), t1, sin), t2, sin);
    IdleStaysIdle(frozen, ts, sin);
  }

  /** With no frame pending nothing changes until a button or the slider
      is used: this is where a paused component rests, too. */
  lemma {:induction false} IdleStaysIdle(s: State, ts: seq<real>, sin: real -> real)
    requires s.pending == NoFrame
    ensures Frames(s, ts, sin) == s
  {
    if |ts| > 0 {
      IdleStaysIdle(s, ts[..|ts| - 1], sin);
    }
  }

  /** Reset while paused is a plain restart: playing, from π/4 at rest,
      with the animation frame requested again. */
  lemma ResetWhilePausedRestarts(s: State)
    requires !s.playing
    ensures Reset(s).playing && Reset(s).pending == AnimateFrame
    ensures Reset(s).angle == StartAngle && Reset(s).velocity == 0.0
    ensures Reset(s).length == s.length
  {
  }

  /** A new length always restarts the swing; the same length changes nothing. */
  lemma SlideRestarts(s: State, length: Length)
    ensures length != s.length ==>
              SetLength(s, length).angle == StartAngle && SetLength(s, length).velocity == 0.0
              && SetLength(s, length).pending == AnimateFrame
    ensures SetLength(s, length) == s <==> length == s.length
  {
    if length != s.length {
      assert SetLength(s, length).length != s.length;
    }
  }

  /** From rest, gravity always pulls the bob back towards the vertical:
      a bob to the right (positive sine) starts moving left, and one to
      the left starts moving right, in any step of positive length. */
  lemma RestoringFromRest(angle: real, length: Length, dt: real, sin: real -> real)
    requires dt > 0.0
    ensures sin(angle) > 0.0 ==>
              Integrate(angle, 0.0, length, dt, sin).1 < 0.0 && Integrate(angle, 0.0, length, dt, sin).0 < angle
    ensures sin(angle) < 0.0 ==>
              Integrate(angle, 0.0, length, dt, sin).1 > 0.0 && Integrate(angle, 0.0, length, dt, sin).0 > angle
  {
    var k := Gravity / length as real;
    assert 0.0 < k;
    var acc := Acceleration(angle, length, sin);
    assert acc == -k * sin(angle);
    var v := Integrate(angle, 0.0, length, dt, sin).1;
    assert v == acc * dt * Damping;
    if sin(angle) > 0.0 {
      assert k * sin(angle) > 0.0;
      assert acc < 0.0;
      assert acc * dt < 0.0;
      assert v < 0.0;
      assert v * dt < 0.0;
    } else if sin(angle) < 0.0 {
      assert k * sin(angle) < 0.0;
      assert acc > 0.0;
      assert acc * dt > 0.0;
      assert v > 0.0;
      assert v * dt > 0.0;
    }
  }

  /** Pausing: the frame the effect re-run requests sees the flag off,
      forgets the timestamp and asks for nothing more, so the paused swing
      is neither drawn nor advanced by any number of later frames. */
  lemma {:induction false} PauseFreezes(s: State, t: real, ts: seq<real>, sin: real -> real)
    requires s.playing
    ensures var paused := OnFrame(TogglePlay(s), t, sin);
            && !paused.playing && !paused.shown && paused.prev.None? && paused.pending == NoFrame
            && Frames(paused, ts, sin) == paused
  {
    var paused := OnFrame(TogglePlay(s), t, sin);
    IdleStaysIdle(paused, ts, sin);
  }

  /** While playing with the animation running, every frame keeps asking
      for the next one and records its own timestamp, however many frames
      pass. */
  lemma {:induction false} PlayingKeepsAnimating(s: State, ts: seq<real>, sin: real -> real)
    requires s.playing && s.pending == AnimateFrame
    ensures Frames(s, ts, sin).playing && Frames(s, ts, sin).pending == AnimateFrame
    ensures Frames(s, ts, sin).length == s.length
    ensures |ts| > 0 ==> Frames(s, ts, sin).prev == Some(ts[|ts| - 1])
  {
    if |ts| > 0 {
      PlayingKeepsAnimating(s, ts[..|ts| - 1], sin);
    }
  }
}
