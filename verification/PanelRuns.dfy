/**
 Every interleaving of the panel's callbacks, sysfs stores, backlight updates, its
 delayed watchdog and driver removal.  Each callback body runs under the driver's one
 mutex and is one step; the trailing cancel_delayed_work_sync of disable and unprepare
 runs outside it and is two steps.
 */
module PanelRuns {
  import opened Bytes
  import opened PanelState
  import opened PanelGood

  /** DRM calls one panel callback at a time, including its trailing cancel. */
  datatype Drm = DrmIdle | Cancelling | Flushing
  datatype Removal = Present | AttrsGone | TimerGone | Flushed | Removed

  /** `running`: the watchdog handler has started and waits for the mutex.
      `armed`: when a store last armed the watchdog. */
  datatype System = System(ctx: Ctx, now: nat, running: bool, armed: nat, drm: Drm, removal: Removal)

  datatype Event =
    | OnPrepare(power: Power, bus: Bus) | OnEnable(bus: Bus) | OnDisable(bus: Bus) | OnUnprepare(bus: Bus)
    | CancelTimer | FlushDone
    | OnFodMode(enable: bool, bus: Bus) | OnFodCircle(enable: bool, bus: Bus)
    | OnBacklight(value: nat, bus: Bus)
    | Tick | Fire | Handle(bus: Bus)
    | RemoveAttrs | RemoveCancel | RemoveFlush | RemoveCleanup(bus: Bus)

  predicate Enabled(s: System, e: Event) {
    match e
    case OnPrepare(_, _) | OnEnable(_) | OnDisable(_) | OnUnprepare(_) => s.drm.DrmIdle?
    case CancelTimer => s.drm.Cancelling?
    case FlushDone => s.drm.Flushing? && !s.running
    case OnFodMode(_, _) | OnFodCircle(_, _) => s.removal.Present?
    case OnBacklight(_, _) => true
    // timers are not late, but the handler may have to wait for the mutex
    case Tick => s.running || s.ctx.watchdog.None? || s.now < s.ctx.watchdog.value
    case Fire => !s.running && s.ctx.watchdog.Some? && s.now >= s.ctx.watchdog.value
    case Handle(_) => s.running
    case RemoveAttrs => s.removal.Present?
    case RemoveCancel => s.removal.AttrsGone?
    case RemoveFlush => s.removal.TimerGone? && !s.running
    case RemoveCleanup(_) => s.removal.Flushed?
  }

  /** Whether a store passes its guards and reaches the watchdog update. */
  predicate Arms(c: Ctx, e: Event) {
    match e
    case OnFodMode(enable, bus) =>
      c.prepared && c.enabled && (!enable || c.fodMode || SendMulti(c.ddic, EnterFod(), bus, 0).1)
    case OnFodCircle(enable, _) => c.prepared && c.enabled && (enable ==> c.fodMode)
    case _ => false
  }

  function Next(s: System, e: Event): System
    requires Enabled(s, e)
  {
    var c := s.ctx;
    match e
    case OnPrepare(power, bus) => s.(ctx := Prepare(c, power, bus).ctx)
    case OnEnable(bus) => s.(ctx := Enable(c, bus).ctx)
    case OnDisable(bus) => s.(ctx := Disable(c, bus).ctx, drm := Cancelling)
    case OnUnprepare(bus) => s.(ctx := Unprepare(c, bus).ctx, drm := Cancelling)
    case CancelTimer => s.(ctx := c.(watchdog := None), drm := Flushing)
    case FlushDone => s.(drm := DrmIdle)
    case OnFodMode(enable, bus) =>
      s.(ctx := StoreFodMode(c, enable, bus, s.now).ctx, armed := if Arms(c, e) then s.now else s.armed)
    case OnFodCircle(enable, bus) =>
      s.(ctx := StoreFodCircle(c, enable, bus, s.now).ctx, armed := if Arms(c, e) then s.now else s.armed)
    case OnBacklight(value, bus) => s.(ctx := SetBacklight(c, value, bus).ctx)
    case Tick => s.(now := s.now + 1)
    case Fire => s.(ctx := c.(watchdog := None), running := true)
    case Handle(bus) => s.(ctx := Watchdog(c, bus), running := false)
    case RemoveAttrs => s.(removal := AttrsGone)
    case RemoveCancel => s.(ctx := c.(watchdog := None), removal := TimerGone)
    case RemoveFlush => s.(removal := Flushed)
    case RemoveCleanup(bus) => s.(ctx := if c.prepared then Cleanup(c, bus).ctx else c, removal := Removed)
  }

  predicate Init(s: System) {
    && s == System(s.ctx, s.now, false, s.armed, DrmIdle, Present)
    && s.ctx == Ctx(MAX_BRIGHTNESS, false, false, false, false, None, 0, s.ctx.ddic)
  }

  // ------------------------------------------------------------------ invariant

  predicate WatchdogOk(s: System) {
    && (s.drm.DrmIdle? || !s.ctx.enabled)
    && (s.ctx.fodMode && s.removal.Present? ==>
          s.running || (s.ctx.watchdog == Some(s.armed + FOD_WATCHDOG_MS) && s.now <= s.armed + FOD_WATCHDOG_MS))
    && (s.removal.Removed? ==> !s.ctx.fodMode)
    && (s.drm.Flushing? ==> s.ctx.watchdog.None?)
    && (s.removal.TimerGone? || s.removal.Flushed? || s.removal.Removed? ==> s.ctx.watchdog.None?)
    && (s.removal.Flushed? || s.removal.Removed? ==> !s.running)
  }

  predicate Inv(s: System) {
    Good(s.ctx) && WatchdogOk(s)
  }

  lemma StepKeepsGood(s: System, e: Event)
    requires Inv(s) && Enabled(s, e)
    ensures Good(Next(s, e).ctx)
  {
    match e
    case OnPrepare(power, bus) => PrepareGood(s.ctx, power, bus);
    case OnEnable(bus) => EnableGood(s.ctx, bus);
    case OnDisable(bus) => DisableGood(s.ctx, bus);
    case OnUnprepare(bus) => UnprepareGood(s.ctx, bus);
    case OnFodMode(enable, bus) => StoreModeGood(s.ctx, enable, bus, s.now);
    case OnFodCircle(enable, bus) => StoreCircleGood(s.ctx, enable, bus, s.now);
    case OnBacklight(value, bus) => BacklightGood(s.ctx, value, bus);
    case Handle(bus) => WatchdogGood(s.ctx, bus);
    case RemoveCleanup(bus) => CleanupGood(s.ctx, bus);
    case _ =>
  }

  lemma StepKeepsWatchdog(s: System, e: Event)
    requires Inv(s) && Enabled(s, e)
    ensures WatchdogOk(Next(s, e))
  {
    StepKeepsGood(s, e);
  }

  ghost predicate IsRun(run: seq<System>, events: seq<Event>) {
    && |run| == |events| + 1
    && Init(run[0])
    && forall i :: 0 <= i < |events| ==> Enabled(run[i], events[i]) && run[i + 1] == Next(run[i], events[i])
  }

  lemma {:induction false} RunKeepsInv(run: seq<System>, events: seq<Event>, i: nat)
    requires IsRun(run, events) && i < |run|
    ensures Inv(run[i])
  {
    if i > 0 {
      RunKeepsInv(run, events, i - 1);
      StepKeepsGood(run[i - 1], events[i - 1]);
      StepKeepsWatchdog(run[i - 1], events[i - 1]);
    }
  }

  /** In every reachable state the modes are nested and the supplies are on exactly while
      the panel is prepared, whatever writes have failed. */
  lemma ModesAlwaysNested(run: seq<System>, events: seq<Event>, i: nat)
    requires IsRun(run, events) && i < |run|
    ensures ModesNested(run[i].ctx)
  {
    RunKeepsInv(run, events, i);
  }

  /** Until removal begins, fingerprint mode outlives the last store that armed the watchdog
      by at most the timeout, unless the handler is already waiting for the lock; and a
      removed driver has left it. */
  lemma FingerprintModeEnds(run: seq<System>, events: seq<Event>, i: nat)
    requires IsRun(run, events) && i < |run|
    ensures run[i].ctx.fodMode && run[i].removal.Present? && !run[i].running ==>
              && run[i].ctx.watchdog == Some(run[i].armed + FOD_WATCHDOG_MS)
              && run[i].now <= run[i].armed + FOD_WATCHDOG_MS
    ensures run[i].removal.Removed? ==> !run[i].ctx.fodMode && !run[i].ctx.fodCircle
    ensures i < |events| && events[i].Handle? ==> !run[i + 1].ctx.fodMode && !run[i + 1].ctx.fodCircle
  {
    RunKeepsInv(run, events, i);
    if i < |events| && events[i].Handle? {
      assert Enabled(run[i], events[i]);
      CleanupGood(run[i].ctx, events[i].bus);
    }
  }

  /** When disable or unprepare returns, and once the driver is removed, the watchdog is
      neither pending nor running, and fingerprint mode is off. */
  lemma WatchdogQuiet(run: seq<System>, events: seq<Event>, i: nat)
    requires IsRun(run, events) && i < |run|
    ensures i < |events| && events[i].FlushDone? ==>
              var s := run[i + 1]; s.ctx.watchdog.None? && !s.running && !s.ctx.fodMode && !s.ctx.enabled
    ensures run[i].removal.Removed? ==>
              run[i].ctx.watchdog.None? && !run[i].running && !run[i].ctx.fodMode
  {
    RunKeepsInv(run, events, i);
    if i < |events| {
      assert Enabled(run[i], events[i]) && run[i + 1] == Next(run[i], events[i]);
    }
  }

  predicate IsStore(e: Event) { e.OnFodMode? || e.OnFodCircle? }

  /** In terms of the steps alone: a panel in fingerprint mode owes it to a store at most the
      timeout ago, unless removal has begun or the handler is waiting for the lock. */
  lemma {:induction false} StoreWithinTimeout(run: seq<System>, events: seq<Event>, i: nat)
    requires IsRun(run, events) && i < |run|
    requires run[i].ctx.fodMode && run[i].removal.Present? && !run[i].running
    ensures exists j :: 0 <= j < i && IsStore(events[j]) && run[i].now <= run[j].now + FOD_WATCHDOG_MS
  {
    FingerprintModeEnds(run, events, i);
    ArmedByStore(run, events, i);
  }

  lemma {:induction false} ArmedByStore(run: seq<System>, events: seq<Event>, i: nat)
    requires IsRun(run, events) && i < |run| && run[i].ctx.fodMode
    ensures exists j :: 0 <= j < i && IsStore(events[j]) && run[j].now == run[i].armed
  {
    assert i > 0;
    assert run[i] == Next(run[i - 1], events[i - 1]) && Enabled(run[i - 1], events[i - 1]);
    RunKeepsInv(run, events, i - 1);
    if !(IsStore(events[i - 1]) && run[i].armed == run[i - 1].now) {
      StaysInMode(run[i - 1], events[i - 1]);
      ArmedByStore(run, events, i - 1);
      var j :| 0 <= j < i - 1 && IsStore(events[j]) && run[j].now == run[i - 1].armed;
      assert run[j].now == run[i].armed;
    }
  }

  /** Only a store that arms the watchdog enters fingerprint mode. */
  lemma StaysInMode(s: System, e: Event)
    requires Inv(s) && Enabled(s, e) && Next(s, e).ctx.fodMode
    ensures (IsStore(e) && Next(s, e).armed == s.now) || (s.ctx.fodMode && Next(s, e).armed == s.armed)
  {
  }

  /** If no write has failed since power-on, the brightness register holds the user's value
      outside fingerprint mode and the fingerprint value inside it; the circle is on exactly
      in circle mode, the panel is lit exactly while enabled, and both level keys are closed. */
  lemma BrightnessFollowsUser(run: seq<System>, events: seq<Event>, i: nat)
    requires IsRun(run, events) && i < |run| && run[i].ctx.prepared && run[i].ctx.ddic.clean
    ensures var c := run[i].ctx;
      && c.ddic.level == (if c.fodMode then FOD_BRIGHTNESS else c.userBrightness)
      && c.ddic.control == (if c.fodMode then CONTROL_FOD else CONTROL_NORMAL)
      && c.ddic.circle == c.fodCircle
      && c.ddic.lit == c.enabled && c.ddic.awake
      && !c.ddic.key1 && !c.ddic.key2
  {
    RunKeepsInv(run, events, i);
  }

  /** With failures the flags can be ahead of the panel: when the first leave write is lost,
      fingerprint mode is off by the flags, a later successful backlight update sets the
      level, and the control register still holds the fingerprint setting. */
  lemma LostLeaveSurvivesBacklight(c: Ctx, bus: Bus, later: Bus, value: nat, now: nat)
    requires Good(c) && c.fodMode && !c.fodCircle && c.ddic.clean
    requires bus(3).Lost? && later(0).Done? && value <= MAX_BRIGHTNESS
    ensures var left := StoreFodMode(c, false, bus, now).ctx;
            var dimmed := SetBacklight(left, value, later);
      && !left.fodMode && dimmed.ok
      && dimmed.ctx.ddic.level == dimmed.ctx.userBrightness == value
      && dimmed.ctx.ddic.control == CONTROL_FOD
  {
  }
}
