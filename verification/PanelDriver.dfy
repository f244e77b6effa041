/**
 The panel driver's callbacks in the driver's own form: a context whose fields the
 methods update in place and whose registers they write one command at a time.  Each
 method's contract says what a caller can rely on, whatever the bus does; its last clause
 links the method to the function whose runs PanelRuns follows.
 */
module PanelDriver {
  import opened Bytes
  import opened PanelState
  import opened PanelGood

  class Panel {
    var userBrightness: nat
    var prepared: bool
    var enabled: bool
    var fodMode: bool
    var fodCircle: bool
    var watchdog: Option<nat>
    var rails: int
    var ddic: Ddic

    ghost function State(): Ctx
      reads this
    {
      Ctx(userBrightness, prepared, enabled, fodMode, fodCircle, watchdog, rails, ddic)
    }

    /** What holds between callbacks: see PanelGood. */
    ghost predicate Valid()
      reads this
    {
      Good(State())
    }

    constructor (reset: Ddic)
      ensures Valid()
      ensures State() == Ctx(MAX_BRIGHTNESS, false, false, false, false, None, 0, reset)
    {
      userBrightness, prepared, enabled, fodMode, fodCircle := MAX_BRIGHTNESS, false, false, false, false;
      watchdog, rails, ddic := None, 0, reset;
    }

    method SendAll(commands: seq<Command>, bus: Bus, from: nat) returns (ok: bool)
      modifies `ddic
      ensures (ddic, ok) == SendMulti(old(ddic), commands, bus, from)
    {
      ok := true;
      var i := 0;
      while i < |commands| && ok
        invariant i <= |commands|
        invariant SendMulti(old(ddic), commands, bus, from)
               == if ok then SendMulti(ddic, commands[i..], bus, from + i) else (ddic, false)
      {
        assert commands[i..][1..] == commands[i + 1..];
        ddic := Send(ddic, commands[i], bus(from + i));
        ok := bus(from + i).Done?;
        i := i + 1;
      }
    }

    method WriteFod(enable: bool, bus: Bus, from: nat) returns (ok: bool)
      modifies `ddic
      ensures ddic.clean <==> old(ddic.clean) && ok
      ensures ok ==> ddic == old(ddic).(control := if enable then CONTROL_FOD else CONTROL_NORMAL,
                                        level := if enable then FOD_BRIGHTNESS else userBrightness,
                                        key1 := false)
      ensures (ddic, ok) == SendMulti(old(ddic), FodSequence(userBrightness, enable), bus, from)
    {
      FodSequenceClean(ddic, userBrightness, enable, bus, from);
      ok := SendAll(FodSequence(userBrightness, enable), bus, from);
    }

    method WriteFodCircle(on: bool, bus: Bus, from: nat) returns (ok: bool)
      modifies `ddic
      ensures ddic.clean <==> old(ddic.clean) && ok
      ensures ddic == old(ddic).(circle := ddic.circle, key2 := ddic.key2, clean := ddic.clean)
      ensures bus(from).Done? && !bus(from + 1).Lost? ==> ddic.circle == on
      ensures !bus(from + 2).Lost? ==> !ddic.key2
      ensures (ddic, ok) == SendCircle(old(ddic), on, bus, from)
    {
      CircleClean(ddic, on, bus, from);
      hide Send;
      ddic := Send(ddic, Key2(true), bus(from));
      ok := bus(from).Done?;
      if ok {
        ddic := Send(ddic, Circle(on), bus(from + 1));
        ok := bus(from + 1).Done?;
      }
      ddic := Send(ddic, Key2(false), bus(from + 2));
      if ok {
        ok := bus(from + 2).Done?;
      }
    }

    method FodCleanup(bus: Bus) returns (ok: bool)
      requires Valid()
      modifies `ddic, `fodCircle, `fodMode
      ensures Valid() && !fodCircle && !fodMode
      ensures ddic.clean <==> old(ddic.clean) && ok
      ensures ok && prepared && old(ddic.clean) ==> !ddic.circle
      ensures old(fodCircle) && bus(0).Done? && !bus(1).Lost? ==> !ddic.circle
      ensures old(fodMode) && bus(3).Done? && bus(4).Done? && !bus(5).Lost? ==>
                ddic.control == CONTROL_NORMAL && ddic.level == userBrightness
      ensures Result(State(), ok) == Cleanup(old(State()), bus)
    {
      CleanupGood(State(), bus);
      hide Good;
      ok := true;
      if fodCircle {
        ok := WriteFodCircle(false, bus, 0);
        fodCircle := false;
      }
      if fodMode {
        var left := WriteFod(false, bus, 3);
        ok := ok && left;
        fodMode := false;
      }
    }

    method RearmWatchdog(now: nat)
      modifies `watchdog
      ensures watchdog.Some? <==> fodMode || fodCircle
      ensures watchdog.Some? ==> watchdog.value == now + FOD_WATCHDOG_MS
      ensures State() == UpdateWatchdog(old(State()), now)
    {
      if fodMode || fodCircle {
        watchdog := Some(now + FOD_WATCHDOG_MS);
      } else {
        watchdog := None;
      }
    }

    method PowerOn(power: Power) returns (ok: bool)
      modifies `rails
      ensures ok == power.PowerGood? && rails == old(rails) + (if ok then SUPPLIES else 0)
    {
      if power.FirstFails? {
        return false;
      }
      rails := rails + 1;
      if power.OthersFail? {
        rails := rails - 1;
        return false;
      }
      rails := rails + (SUPPLIES - 1);
      return true;
    }

    method OnPrepare(power: Power, bus: Bus) returns (ok: bool)
      requires Valid()
      modifies `prepared, `rails, `ddic
      ensures Valid() && (ok <==> prepared)
      ensures !ok ==> rails == old(rails)
      ensures ok && !old(prepared) ==>
                ddic == AFTER_RESET.(control := CONTROL_NORMAL, level := userBrightness, awake := true)
      ensures power.PowerGood? && (forall n :: bus(n).Done?) ==> ok
      ensures old(prepared) ==> State() == old(State())
      ensures Result(State(), ok) == Prepare(old(State()), power, bus)
    {
      PrepareGood(State(), power, bus);
      hide Good;
      if prepared {
        return true;
      }
      ok := PowerOn(power);
      if !ok {
        return;
      }
      ddic := AFTER_RESET;
      ok := SendAll(PowerOnSequence(userBrightness), bus, 0);
      if !ok {
        rails := rails - SUPPLIES;
        return;
      }
      prepared := true;
    }

    method OnEnable(bus: Bus) returns (ok: bool)
      requires Valid()
      modifies `enabled, `ddic
      ensures Valid() && (ok <==> enabled)
      ensures ddic == old(ddic).(key1 := ddic.key1, lit := ddic.lit, clean := ddic.clean)
      ensures ok && !old(enabled) ==> ddic.lit && !ddic.key1
      ensures prepared && (forall n :: bus(n).Done?) ==> ok
      ensures Result(State(), ok) == Enable(old(State()), bus)
    {
      EnableGood(State(), bus);
      hide Good;
      if !prepared {
        return false;
      }
      if enabled {
        return true;
      }
      ok := SendAll(LightSequence(), bus, 0);
      if ok {
        enabled := true;
      }
    }

    method OnDisable(bus: Bus) returns (ok: bool)
      requires Valid()
      modifies `enabled, `fodMode, `fodCircle, `ddic
      ensures Valid() && !enabled && !fodMode && !fodCircle
      ensures old(enabled) && !bus(10).Lost? ==> !ddic.lit
      ensures ddic.clean <==> old(ddic.clean) && ok
      ensures Result(State(), ok) == Disable(old(State()), bus)
    {
      DisableGood(State(), bus);
      hide Good;
      if !enabled {
        return true;
      }
      ok := FodCleanup(bus);
      ddic := Send(ddic, Lit(false), bus(10));
      enabled := false;
      ok := ok && bus(10).Done?;
    }

    method OnUnprepare(bus: Bus) returns (ok: bool)
      requires Valid()
      modifies `prepared, `enabled, `fodMode, `fodCircle, `rails, `ddic
      ensures Valid() && !prepared && !enabled && !fodMode && !fodCircle && rails == 0
      ensures old(prepared) && !bus(10).Lost? ==> !ddic.awake
      ensures ddic.clean <==> old(ddic.clean) && ok
      ensures Result(State(), ok) == Unprepare(old(State()), bus)
    {
      UnprepareGood(State(), bus);
      hide Good;
      if !prepared {
        return true;
      }
      ok := FodCleanup(bus);
      ddic := Send(ddic, Awake(false), bus(10));
      enabled, prepared := false, false;
      rails := rails - SUPPLIES;
      ok := ok && bus(10).Done?;
    }

    method OnBacklight(value: nat, bus: Bus) returns (ok: bool)
      requires Valid()
      modifies `userBrightness, `ddic
      ensures Valid() && (value <= MAX_BRIGHTNESS ==> userBrightness == value)
      ensures value > MAX_BRIGHTNESS ==> userBrightness == MAX_BRIGHTNESS
      ensures fodMode || !prepared ==> ok && ddic == old(ddic)
      ensures ok && prepared && !fodMode ==> ddic.level == userBrightness
      ensures ddic.clean <==> old(ddic.clean) && ok
      ensures Result(State(), ok) == SetBacklight(old(State()), value, bus)
    {
      BacklightGood(State(), value, bus);
      hide Good;
      ok := true;
      userBrightness := if value < MAX_BRIGHTNESS then value else MAX_BRIGHTNESS;
      if prepared && !fodMode {
        ddic := Send(ddic, Level(userBrightness), bus(0));
        ok := bus(0).Done?;
      }
    }

    method OnFodMode(enable: bool, bus: Bus, now: nat) returns (ok: bool)
      requires Valid()
      modifies `fodMode, `fodCircle, `watchdog, `ddic
      ensures Valid() && fodMode == (ok && enable)
      ensures ok ==> watchdog == if enable then Some(now + FOD_WATCHDOG_MS) else None
      ensures ok ==> ddic.clean == old(ddic.clean)
      ensures !enabled ==> !ok && State() == old(State())
      ensures enabled && (forall n :: bus(n).Done?) ==> ok
      ensures enabled && enable && !ok && bus(6).Done? && bus(7).Done? && !bus(8).Lost? ==>
                ddic.control == CONTROL_NORMAL && ddic.level == userBrightness
      ensures Result(State(), ok) == StoreFodMode(old(State()), enable, bus, now)
    {
      StoreModeGood(State(), enable, bus, now);
      hide Good;
      if !prepared || !enabled {
        return false;
      }
      if fodMode == enable {
        RearmWatchdog(now);
        return true;
      }
      if enable {
        ok := WriteFod(true, bus, 0);
        if !ok {
          var _ := WriteFod(false, bus, 6);
          return;
        }
        fodMode := true;
      } else {
        ok := FodCleanup(bus);
      }
      RearmWatchdog(now);
    }

    method OnFodCircle(enable: bool, bus: Bus, now: nat) returns (ok: bool)
      requires Valid()
      modifies `fodCircle, `watchdog, `ddic
      ensures Valid() && fodCircle == (if ok then enable else old(fodCircle))
      ensures ok ==> watchdog == if fodMode then Some(now + FOD_WATCHDOG_MS) else None
      ensures ok ==> ddic.clean == old(ddic.clean)
      ensures !enabled || (enable && !fodMode) ==> !ok && State() == old(State())
      ensures enabled && (enable ==> fodMode) && (forall n :: bus(n).Done?) ==> ok
      ensures enabled && fodMode && enable && !ok && bus(3).Done? && !bus(4).Lost? ==> !ddic.circle
      ensures Result(State(), ok) == StoreFodCircle(old(State()), enable, bus, now)
    {
      StoreCircleGood(State(), enable, bus, now);
      hide Good;
      if !prepared || !enabled {
        return false;
      }
      if enable && !fodMode {
        return false;
      }
      if fodCircle == enable {
        RearmWatchdog(now);
        return true;
      }
      ok := WriteFodCircle(enable, bus, 0);
      if ok {
        fodCircle := enable;
      } else if enable {
        var _ := WriteFodCircle(false, bus, 3);
      }
      RearmWatchdog(now);
    }

    method OnWatchdog(bus: Bus)
      requires Valid()
      modifies `fodMode, `fodCircle, `ddic
      ensures Valid() && !fodMode && !fodCircle
      ensures old(fodCircle) && bus(0).Done? && !bus(1).Lost? ==> !ddic.circle
      ensures old(fodMode) && bus(3).Done? && bus(4).Done? && !bus(5).Lost? ==>
                ddic.control == CONTROL_NORMAL && ddic.level == userBrightness
      ensures State() == Watchdog(old(State()), bus)
    {
      WatchdogGood(State(), bus);
      hide Good;
      if prepared && enabled {
        var _ := FodCleanup(bus);
      } else {
        fodCircle, fodMode := false, false;
      }
    }
  }
}
