/**
 The camera sensor of kernel/drivers/hi1337_gts9u.c: what it holds while streaming, and
 the ranges of its vertical blanking and exposure controls.
 */
module CameraSensor {

  const FRAME_LENGTH_MAX: nat := 0x7fff
  const EXPOSURE_MIN: nat := 4
  const EXPOSURE_MARGIN: nat := 4

  datatype Mode = Mode(height: nat, frameLength: nat)

  const REAR := Mode(3096, 0x0cc0)
  const FRONT := Mode(2556, 0x0a96)
  const FRONT_ULTRAWIDE := Mode(3000, 0x0c54)

  predicate IsMode(m: Mode) {
    m == REAR || m == FRONT || m == FRONT_ULTRAWIDE
  }

  function Min(a: int, b: int): int { if a < b then a else b }

  // ------------------------------------------------------------------ controls

  /** The V4L2 controls: current vblank and exposure, and the exposure's current maximum. */
  datatype Controls = Controls(mode: Mode, vblank: int, exposure: int, exposureMax: int)
  {
    predicate VblankInRange(v: int) {
      mode.frameLength - mode.height <= v <= FRAME_LENGTH_MAX - mode.height
    }

    /** What the sensor needs: the exposure fits the frame. */
    predicate ExposureFits() {
      EXPOSURE_MIN <= exposure <= mode.height + vblank - EXPOSURE_MARGIN
    }

    /** The range offered to user space is no wider than the frame. */
    predicate RangeFits() {
      exposureMax <= mode.height + vblank - EXPOSURE_MARGIN
    }
  }

  function InitialControls(mode: Mode): Controls {
    var max := mode.frameLength - EXPOSURE_MARGIN;
    Controls(mode, mode.frameLength - mode.height, max, max)
  }

  /** hi1337_set_ctrl for vblank: the exposure range moves first, and an exposure above it is
      set to its end; then the frame length is written.  The core keeps the old value of a
      control whose register write fails. */
  function SetVblank(c: Controls, v: int, clamped: bool, ok: bool): Controls {
    var max := c.mode.height + v - EXPOSURE_MARGIN;
    c.(exposureMax := max,
       exposure := if clamped then Min(c.exposure, max) else c.exposure,
       vblank := if ok then v else c.vblank)
  }

  function SetExposure(c: Controls, e: int, ok: bool): Controls {
    if ok then c.(exposure := e) else c
  }

  /** `ok` tells whether the register write, made only while streaming, succeeded, and
      `clamped` the same of the write that lowers the exposure into its new range.
      Setup is __v4l2_ctrl_handler_setup at stream start: every control set to its value. */
  datatype Event =
    | OnVblank(v: int, clamped: bool, ok: bool)
    | OnExposure(e: int, ok: bool)
    | Setup(clamped: bool, ok: bool)

  predicate Enabled(c: Controls, e: Event) {
    match e
    case OnVblank(v, _, _) => c.VblankInRange(v)
    case OnExposure(x, _) => EXPOSURE_MIN <= x <= c.exposureMax
    case Setup(_, _) => true
  }

  function Next(c: Controls, e: Event): Controls {
    match e
    case OnVblank(v, clamped, ok) => SetVblank(c, v, clamped, ok)
    case OnExposure(x, ok) => SetExposure(c, x, ok)
    case Setup(clamped, ok) => SetVblank(c, c.vblank, clamped, ok)
  }

  /** A request takes effect as asked when its writes succeed: the range ends at the new
      frame, and an exposure already inside it keeps its value. */
  lemma VblankTakesEffect(c: Controls, v: int, clamped: bool, ok: bool)
    ensures var c' := Next(c, OnVblank(v, clamped, ok));
            var max := c.mode.height + v - 4;
      && c'.mode == c.mode && c'.exposureMax == max
      && c'.vblank == (if ok then v else c.vblank)
      && (c.exposure <= max || !clamped ==> c'.exposure == c.exposure)
      && (c.exposure > max && clamped ==> c'.exposure == max)
  {
  }

  lemma ExposureTakesEffect(c: Controls, x: int, ok: bool)
    ensures Next(c, OnExposure(x, ok)) == if ok then c.(exposure := x) else c
  {
  }

  /** A request for a longer frame whose register write fails. */
  predicate LostRaise(c: Controls, e: Event) {
    e.OnVblank? && !e.ok && e.v > c.vblank
  }

  /** A request for a shorter frame that is written although the exposure too long for it
      could not be lowered. */
  predicate LostClamp(c: Controls, e: Event) {
    e.OnVblank? && e.ok && !e.clamped && c.exposure > c.mode.height + e.v - EXPOSURE_MARGIN
  }

  predicate Inv(c: Controls) {
    IsMode(c.mode) && c.VblankInRange(c.vblank) && c.ExposureFits() && c.RangeFits()
  }

  /** One step from a good state is good if and only if it is neither a lost raise nor a
      lost clamp. */
  lemma StepGoodIff(c: Controls, e: Event)
    requires Inv(c) && Enabled(c, e)
    ensures Inv(Next(c, e)) <==> !LostRaise(c, e) && !LostClamp(c, e)
  {
  }

  /** And the two break different things: the one the range, the other the exposure. */
  lemma WhatBreaks(c: Controls, e: Event)
    requires Inv(c) && Enabled(c, e)
    ensures Next(c, e).ExposureFits() <==> !LostClamp(c, e)
    ensures Next(c, e).RangeFits() <==> !LostRaise(c, e)
  {
  }

  /** An offered range wider than the frame is exactly a range that lets the next exposure
      request through beyond the frame. */
  lemma WideRangeBreaksExposure(c: Controls)
    requires IsMode(c.mode) && c.VblankInRange(c.vblank) && c.exposureMax >= EXPOSURE_MIN
    ensures c.RangeFits() <==>
              forall x :: Enabled(c, OnExposure(x, true)) ==> Next(c, OnExposure(x, true)).ExposureFits()
  {
    assert Enabled(c, OnExposure(c.exposureMax, true));
  }

  ghost predicate IsRun(run: seq<Controls>, events: seq<Event>) {
    && |run| == |events| + 1
    && IsMode(run[0].mode) && run[0] == InitialControls(run[0].mode)
    && forall i :: 0 <= i < |events| ==> Enabled(run[i], events[i]) && run[i + 1] == Next(run[i], events[i])
  }

  /** Without lost raises and lost clamps the exposure always fits the frame and the
      frame-length register its fifteen bits. */
  lemma {:induction false} ExposureAlwaysFits(run: seq<Controls>, events: seq<Event>, i: nat)
    requires IsRun(run, events) && i < |run|
    requires forall j :: 0 <= j < i ==> !LostRaise(run[j], events[j]) && !LostClamp(run[j], events[j])
    ensures Inv(run[i]) && run[i].mode.height + run[i].vblank <= FRAME_LENGTH_MAX
  {
    if i > 0 {
      ExposureAlwaysFits(run, events, i - 1);
      StepGoodIff(run[i - 1], events[i - 1]);
    }
  }

  /** Exactly the runs without either keep exposure and range inside the frame throughout. */
  lemma {:induction false} RunFitsIff(run: seq<Controls>, events: seq<Event>, n: nat)
    requires IsRun(run, events) && n < |run|
    ensures (forall i :: 0 <= i <= n ==> Inv(run[i]))
       <==> (forall j :: 0 <= j < n ==> !LostRaise(run[j], events[j]) && !LostClamp(run[j], events[j]))
  {
    if n > 0 {
      RunFitsIff(run, events, n - 1);
      assert run[n] == Next(run[n - 1], events[n - 1]);
      if Inv(run[n - 1]) {
        StepGoodIff(run[n - 1], events[n - 1]);
      }
    }
  }

  /** With a lost raise it may not: a run of the rear sensor that ends with an exposure longer than
      its frame. */
  lemma LostRaiseBreaksExposure() returns (run: seq<Controls>, events: seq<Event>)
    ensures IsRun(run, events) && |events| == 2 && !run[2].ExposureFits()
  {
    var c := InitialControls(REAR);
    events := [OnVblank(1000, true, false), OnExposure(4000, true)];
    run := [c, Next(c, events[0]), Next(Next(c, events[0]), events[1])];
  }

  /** So does a run in which only the clamp's write is lost. */
  lemma LostClampBreaksExposure() returns (run: seq<Controls>, events: seq<Event>)
    ensures IsRun(run, events) && |events| == 3 && !run[3].ExposureFits()
    ensures forall j :: 0 <= j < 3 ==> !LostRaise(run[j], events[j])
  {
    var c := InitialControls(REAR);
    events := [OnVblank(1000, true, true), OnExposure(4000, true), OnVblank(168, false, true)];
    var c1 := Next(c, events[0]);
    var c2 := Next(c1, events[1]);
    run := [c, c1, c2, Next(c2, events[2])];
  }

  // ------------------------------------------------------------------ power and streaming

  datatype Faults = Faults(supplies: bool, enable: bool, reset: bool, clock: bool,
                           table: bool, setup: bool, mode: bool, standby: bool)

  class Sensor {
    const hasEnable: bool              // the enable line is optional
    var supplies: int                  // enable count of the bulk supplies
    var clock: int
    var enableHeld: bool
    var resetHeld: bool
    var streaming: bool

    /** Everything is held while streaming and nothing otherwise. */
    ghost predicate Valid()
      reads this
    {
      if streaming then HeldAll() else HeldNone()
    }

    ghost predicate HeldAll()
      reads this
    {
      supplies == 1 && clock == 1 && resetHeld && enableHeld == hasEnable
    }

    ghost predicate HeldNone()
      reads this
    {
      supplies == 0 && clock == 0 && !resetHeld && !enableHeld
    }

    constructor (enableLine: bool)
      ensures Valid() && !streaming && hasEnable == enableLine
    {
      hasEnable := enableLine;
      supplies, clock, enableHeld, resetHeld, streaming := 0, 0, false, false, false;
    }

    /** hi1337_power_on, unwinding what it holds at each failure. */
    method PowerOn(f: Faults) returns (ok: bool)
      requires HeldNone()
      modifies `supplies, `clock, `enableHeld, `resetHeld
      ensures ok <==> !f.supplies && !f.enable && !f.reset && !f.clock
      ensures if ok then HeldAll() else HeldNone()
    {
      if f.supplies {
        return false;
      }
      supplies := supplies + 1;
      if f.enable {
        supplies := supplies - 1;
        return false;
      }
      enableHeld := hasEnable;
      if f.reset {
        enableHeld := false;
        supplies := supplies - 1;
        return false;
      }
      resetHeld := true;
      if f.clock {
        resetHeld, enableHeld := false, false;
        supplies := supplies - 1;
        return false;
      }
      clock := clock + 1;
      return true;
    }

    /** hi1337_power_off does nothing unless the reset line is held. */
    method PowerOff()
      requires HeldAll() || HeldNone()
      modifies `supplies, `clock, `enableHeld, `resetHeld
      ensures HeldNone()
    {
      if !resetHeld {
        return;
      }
      clock := clock - 1;
      resetHeld, enableHeld := false, false;
      supplies := supplies - 1;
    }

    method StartStreaming(f: Faults) returns (ok: bool)
      requires !streaming
      modifies `streaming
      ensures ok <==> !f.table && !f.setup && !f.mode
      ensures streaming == ok
    {
      if f.table {
        return false;
      }
      streaming := true;
      if f.setup || f.mode {
        streaming := false;
        return false;
      }
      return true;
    }

    /** A start succeeds exactly when nothing it needs fails; a stop always stops, and only
        its result tells whether the standby write arrived. */
    method SetStream(enable: bool, f: Faults) returns (ok: bool)
      requires Valid()
      modifies this
      ensures Valid()
      ensures !enable ==> !streaming && (ok <==> !old(streaming) || !f.standby)
      ensures enable ==> streaming == ok
      ensures enable && !old(streaming) ==>
                (ok <==> f.(standby := false) == Faults(false, false, false, false, false, false, false, false))
      ensures enable && old(streaming) ==> ok
    {
      ok := true;
      if streaming == enable {
        return;
      }
      if enable {
        ok := PowerOn(f);
        if !ok {
          return;
        }
        ok := StartStreaming(f);
        if !ok {
          PowerOff();
        }
      } else {
        ok := !f.standby;
        streaming := false;
        PowerOff();
      }
    }
  }
}
