/**
 What holds of the panel's state between callbacks, and what each callback means for a
 caller: which flags it leaves, what it does not touch, and what its result says about
 the registers.
 */
module PanelGood {
  import opened Bytes
  import opened PanelState

  /** Circle mode needs fingerprint mode needs a lit panel needs a powered one. */
  predicate ModesNested(c: Ctx) {
    && (c.fodCircle ==> c.fodMode)
    && (c.fodMode ==> c.enabled)
    && (c.enabled ==> c.prepared)
    && c.rails == (if c.prepared then SUPPLIES else 0)
  }

  /** The registers agree with the flags, as long as no write since power-on has failed. */
  predicate RegistersAgree(c: Ctx) {
    c.prepared && c.ddic.clean ==>
      && c.ddic.control == (if c.fodMode then CONTROL_FOD else CONTROL_NORMAL)
      && c.ddic.level == (if c.fodMode then FOD_BRIGHTNESS else c.userBrightness)
      && c.ddic.circle == c.fodCircle
      && !c.ddic.key1 && !c.ddic.key2
      && c.ddic.awake && c.ddic.lit == c.enabled
  }

  predicate Good(c: Ctx) {
    ModesNested(c) && RegistersAgree(c) && c.userBrightness <= MAX_BRIGHTNESS
  }

  // ------------------------------------------------------------------ what results mean

  /** Success is reported exactly when nothing was lost, and then the circle is as asked.
      Opening the key and the circle's own write are enough for the circle, and closing the
      key for the key, whatever happens to the others. */
  lemma CircleClean(d: Ddic, on: bool, bus: Bus, from: nat)
    ensures var (d', ok) := SendCircle(d, on, bus, from);
      && (d'.clean <==> d.clean && ok)
      && d' == d.(circle := d'.circle, key2 := d'.key2, clean := d'.clean)
      && (bus(from).Done? && !bus(from + 1).Lost? ==> d'.circle == on)
      && (!bus(from + 2).Lost? ==> !d'.key2)
  {
    var d1 := Send(d, Key2(true), bus(from));
    var d2 := if bus(from).Done? then Send(d1, Circle(on), bus(from + 1)) else d1;
    SendOne(d, Key2(true), bus(from));
    SendOne(d1, Circle(on), bus(from + 1));
    SendOne(d2, Key2(false), bus(from + 2));
    hide Send;
  }

  /** A multi sequence reports success exactly when nothing was lost, and has then applied
      all of it. */
  lemma MultiClean(d: Ddic, cs: seq<Command>, bus: Bus, from: nat)
    ensures var (d', ok) := SendMulti(d, cs, bus, from);
      && (d'.clean <==> d.clean && ok)
      && (ok ==> d' == ApplyAll(d, cs))
  {
    if d.clean {
      MultiCleanIff(d, cs, bus, from);
    } else {
      MultiKeepsDirt(d, cs, bus, from);
    }
    if SendMulti(d, cs, bus, from).1 {
      MultiAppliesAll(d, cs, bus, from);
    }
  }

  lemma {:induction false} AllDone(d: Ddic, cs: seq<Command>, bus: Bus, from: nat)
    requires forall n :: bus(n).Done?
    ensures SendMulti(d, cs, bus, from).1
    decreases |cs|
  {
    if cs != [] {
      AllDone(Apply(d, cs[0]), cs[1..], bus, from + 1);
    }
  }

  /** Success is reported exactly when nothing was lost, and then both brightness registers
      are those of the mode asked for, the key is closed and the others are untouched. */
  lemma FodSequenceClean(d: Ddic, user: nat, enable: bool, bus: Bus, from: nat)
    ensures var (d', ok) := SendMulti(d, FodSequence(user, enable), bus, from);
      && (d'.clean <==> d.clean && ok)
      && (ok ==> d' == d.(control := if enable then CONTROL_FOD else CONTROL_NORMAL,
                          level := if enable then FOD_BRIGHTNESS else user,
                          key1 := false))
  {
    MultiClean(d, FodSequence(user, enable), bus, from);
    FodSequenceEffect(d, user, enable);
  }

  /** Leaving fingerprint mode always clears both flags and nothing else, and reports every
      lost write.  The two halves do not depend on one another: the circle is off if its own
      writes arrive, and brightness is normal if its own do. */
  lemma CleanupGood(c: Ctx, bus: Bus)
    requires Good(c)
    ensures var r := Cleanup(c, bus);
      && Good(r.ctx)
      && r.ctx == c.(fodCircle := false, fodMode := false, ddic := r.ctx.ddic)
      && (r.ctx.ddic.clean <==> c.ddic.clean && r.ok)
      && r.ctx.ddic.lit == c.ddic.lit && r.ctx.ddic.awake == c.ddic.awake
      && (r.ok && c.prepared && c.ddic.clean ==> !r.ctx.ddic.circle)
      && (c.fodCircle && bus(0).Done? && !bus(1).Lost? ==> !r.ctx.ddic.circle)
      && (c.fodMode && bus(3).Done? && bus(4).Done? && !bus(5).Lost? ==>
            r.ctx.ddic.control == CONTROL_NORMAL && r.ctx.ddic.level == c.userBrightness)
  {
    var (d1, ok1) := if c.fodCircle then SendCircle(c.ddic, false, bus, 0) else (c.ddic, true);
    CircleClean(c.ddic, false, bus, 0);
    FodSequenceClean(d1, c.userBrightness, false, bus, 3);
    LeaveUnrolled(d1, c.userBrightness, bus, 3);
    LeaveKeeps(d1, c.userBrightness, bus, 3);
  }

  lemma LeaveKeeps(d: Ddic, user: nat, bus: Bus, from: nat)
    ensures var d' := SendMulti(d, LeaveFod(user), bus, from).0;
      d'.circle == d.circle && d'.lit == d.lit && d'.awake == d.awake && d'.key2 == d.key2
  {
    LeaveUnrolled(d, user, bus, from);
  }

  /** Success and a powered panel are the same; a fresh one shows the user's brightness, and
      a failure changes no state. */
  lemma PrepareGood(c: Ctx, power: Power, bus: Bus)
    requires Good(c)
    ensures var r := Prepare(c, power, bus);
      && Good(r.ctx)
      && (r.ok <==> r.ctx.prepared)
      && (!r.ok ==> r.ctx == c.(ddic := r.ctx.ddic))
      && (r.ok && !c.prepared ==>
            r.ctx.ddic == AFTER_RESET.(control := CONTROL_NORMAL, level := c.userBrightness, awake := true))
      && (c.prepared ==> r.ctx == c)
      && (!c.prepared && power.PowerGood? && (forall n :: bus(n).Done?) ==> r.ok)
  {
    MultiClean(AFTER_RESET, PowerOnSequence(c.userBrightness), bus, 0);
    PowerOnEffect(c.userBrightness);
    if forall n :: bus(n).Done? {
      AllDone(AFTER_RESET, PowerOnSequence(c.userBrightness), bus, 0);
    }
  }

  /** Success and an enabled panel are the same, and success lights it; brightness and
      circle do not change. */
  lemma EnableGood(c: Ctx, bus: Bus)
    requires Good(c)
    ensures var r := Enable(c, bus);
      && Good(r.ctx)
      && (r.ok <==> r.ctx.enabled)
      && r.ctx == c.(enabled := r.ok, ddic := r.ctx.ddic)
      && r.ctx.ddic == c.ddic.(key1 := r.ctx.ddic.key1, lit := r.ctx.ddic.lit, clean := r.ctx.ddic.clean)
      && (r.ok && !c.enabled ==> r.ctx.ddic == c.ddic.(lit := true, key1 := false))
      && (c.prepared && (forall n :: bus(n).Done?) ==> r.ok)
  {
    MultiClean(c.ddic, LightSequence(), bus, 0);
    LightEffect(c.ddic);
    LightUnrolled(c.ddic, bus, 0);
    if forall n :: bus(n).Done? {
      AllDone(c.ddic, LightSequence(), bus, 0);
    }
  }

  /** A disabled panel is out of both modes, whatever failed, and dark unless that write was
      lost; failures are reported. */
  lemma DisableGood(c: Ctx, bus: Bus)
    requires Good(c)
    ensures var r := Disable(c, bus);
      && Good(r.ctx)
      && r.ctx == c.(enabled := false, fodMode := false, fodCircle := false, ddic := r.ctx.ddic)
      && (r.ctx.ddic.clean <==> c.ddic.clean && r.ok)
      && (c.enabled && !bus(10).Lost? ==> !r.ctx.ddic.lit)
  {
    CleanupGood(c, bus);
  }

  /** An unprepared panel is out of both modes and without power, whatever failed, and was
      sent to sleep before unless that write was lost. */
  lemma UnprepareGood(c: Ctx, bus: Bus)
    requires Good(c)
    ensures var r := Unprepare(c, bus);
      && Good(r.ctx)
      && r.ctx == c.(prepared := false, enabled := false, fodMode := false, fodCircle := false,
                     rails := 0, ddic := r.ctx.ddic)
      && (r.ctx.ddic.clean <==> c.ddic.clean && r.ok)
      && (c.prepared && !bus(10).Lost? ==> !r.ctx.ddic.awake)
  {
    CleanupGood(c, bus);
  }

  /** The user's value is always remembered; fingerprint mode is not disturbed. */
  lemma BacklightGood(c: Ctx, value: nat, bus: Bus)
    requires Good(c)
    ensures var r := SetBacklight(c, value, bus);
      && Good(r.ctx)
      && r.ctx == c.(userBrightness := r.ctx.userBrightness, ddic := r.ctx.ddic)
      && (value <= MAX_BRIGHTNESS ==> r.ctx.userBrightness == value)
      && (value > MAX_BRIGHTNESS ==> r.ctx.userBrightness == MAX_BRIGHTNESS)
      && (c.fodMode || !c.prepared ==> r.ok && r.ctx.ddic == c.ddic)
      && (r.ctx.ddic.clean <==> c.ddic.clean && r.ok)
      && (r.ok && c.prepared && !c.fodMode ==> r.ctx.ddic.level == r.ctx.userBrightness)
  {
  }

  /** A successful store leaves the mode as asked and the watchdog armed exactly while it is
      on; one that fails leaves both modes off.  A failed entry is rolled back. */
  lemma StoreModeGood(c: Ctx, enable: bool, bus: Bus, now: nat)
    requires Good(c)
    ensures var r := StoreFodMode(c, enable, bus, now);
      && Good(r.ctx)
      && r.ctx.fodMode == (r.ok && enable)
      && (r.ok ==> r.ctx.watchdog == if enable then Some(now + FOD_WATCHDOG_MS) else None)
      && (r.ok ==> r.ctx.ddic.clean == c.ddic.clean)
      && (!c.enabled ==> !r.ok && r.ctx == c)
      && (c.enabled && (forall n :: bus(n).Done?) ==> r.ok)
      && (c.enabled && enable && !r.ok && bus(6).Done? && bus(7).Done? && !bus(8).Lost? ==>
            r.ctx.ddic.control == CONTROL_NORMAL && r.ctx.ddic.level == c.userBrightness)
  {
    CleanupGood(c, bus);
    if forall n :: bus(n).Done? {
      AllDone(c.ddic, FodSequence(c.userBrightness, true), bus, 0);
      AllDone(if c.fodCircle then SendCircle(c.ddic, false, bus, 0).0 else c.ddic, LeaveFod(c.userBrightness), bus, 3);
    }
    LeaveUnrolled(SendMulti(c.ddic, EnterFod(), bus, 0).0, c.userBrightness, bus, 6);
    var (d, ok) := SendMulti(c.ddic, FodSequence(c.userBrightness, true), bus, 0);
    FodSequenceClean(c.ddic, c.userBrightness, true, bus, 0);
    FodSequenceClean(d, c.userBrightness, false, bus, 6);
  }

  /** A successful store leaves the circle as asked; one that fails leaves the flag as it
      was and rolls the circle back.  Outside fingerprint mode it cannot be switched on. */
  lemma StoreCircleGood(c: Ctx, enable: bool, bus: Bus, now: nat)
    requires Good(c)
    ensures var r := StoreFodCircle(c, enable, bus, now);
      && Good(r.ctx)
      && r.ctx.fodMode == c.fodMode
      && r.ctx.fodCircle == (if r.ok then enable else c.fodCircle)
      && (r.ok ==> r.ctx.watchdog == if c.fodMode then Some(now + FOD_WATCHDOG_MS) else None)
      && (r.ok ==> r.ctx.ddic.clean == c.ddic.clean)
      && (!c.enabled || (enable && !c.fodMode) ==> !r.ok && r.ctx == c)
      && (c.enabled && (enable ==> c.fodMode) && (forall n :: bus(n).Done?) ==> r.ok)
      && (c.enabled && c.fodMode && enable && !r.ok && bus(3).Done? && !bus(4).Lost? ==> !r.ctx.ddic.circle)
  {
    CircleClean(c.ddic, enable, bus, 0);
    CircleClean(SendCircle(c.ddic, enable, bus, 0).0, false, bus, 3);
  }

  /** The watchdog always ends both modes and touches nothing else. */
  lemma WatchdogGood(c: Ctx, bus: Bus)
    requires Good(c)
    ensures var c' := Watchdog(c, bus);
      && Good(c') && c' == c.(fodMode := false, fodCircle := false, ddic := c'.ddic)
      && (c.fodCircle && bus(0).Done? && !bus(1).Lost? ==> !c'.ddic.circle)
      && (c.fodMode && bus(3).Done? && bus(4).Done? && !bus(5).Lost? ==>
            c'.ddic.control == CONTROL_NORMAL && c'.ddic.level == c.userBrightness)
  {
    CleanupGood(c, bus);
  }
}
