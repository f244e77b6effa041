/**
 The fingerprint companion in the driver's own form: fields updated under the lock, early
 exits that unwind, and the ioctl's loop over its transfers.
 */
module FingerprintPowerDriver {
  import opened Bytes
  import opened FingerprintPower

  class Companion {
    var supply: bool
    var ldo: Option<bool>
    var enable: Option<bool>
    var balance: int
    var powered: bool
    var removing: bool
    var resets: u32
    var kind: int
    var spi: u32
    var clock: u32

    ghost function State(): Sensor
      reads this
    {
      Sensor(supply, ldo, enable, balance, powered, removing, resets, kind, spi, clock)
    }

    /** The rail is enabled exactly while powered, and a device being removed is off. */
    ghost predicate Valid()
      reads this
    {
      Balanced(State())
    }

    constructor ()
      ensures Valid()
      ensures State() == PROBED
    {
      supply, ldo, enable, balance := false, None, None, 0;
      powered, removing := false, false;
      resets, kind, spi, clock := 0, SENSOR_TYPE, 0, 0;
    }

    method PrepareHardware(a: Answers) returns (code: int)
      modifies `supply, `ldo, `enable
      ensures code == 0 ==> supply && enable.Some?
      ensures old(supply) ==> supply
      ensures old(ldo).Some? ==> ldo == old(ldo)
      ensures old(enable).Some? ==> enable == old(enable)
      ensures (State(), code) == Prepare(old(State()), a)
    {
      if !supply {
        if a.publish != 0 { return a.publish; }
        if a.getSupply != 0 { return a.getSupply; }
        supply := true;
      }
      if ldo.None? {
        if a.getLdo != 0 { return a.getLdo; }
        if a.hasLdo { ldo := Some(a.ldoLevel); }
      }
      if enable.None? {
        if a.getEnable != 0 { return a.getEnable; }
        enable := Some(a.enableLevel);
      }
      return 0;
    }

    method SwitchOn(a: Answers) returns (code: int)
      requires Valid() && !removing
      modifies `supply, `ldo, `enable, `balance, `powered
      ensures Valid() && (code == 0 <==> powered)
      ensures code != 0 ==> balance == old(balance)
      ensures (State(), code) == PowerOn(old(State()), a)
    {
      if powered { return 0; }
      code := PrepareHardware(a);
      if code != 0 { return; }
      if a.railOn != 0 { return a.railOn; }
      balance := balance + 1;
      if ldo.Some? {
        if a.driveLdo != 0 {
          balance := balance - 1;
          return a.driveLdo;
        }
        ldo := Some(true);
      }
      if a.driveEnable != 0 {
        if ldo.Some? { ldo := Some(false); }
        balance := balance - 1;
        return a.driveEnable;
      }
      enable := Some(true);
      powered := true;
    }

    method SwitchOff()
      requires RailMatches(State())
      modifies `ldo, `enable, `balance, `powered
      ensures Valid() && !powered && balance == 0
      ensures old(powered) ==> enable == Some(false) && ldo != Some(true)
      ensures State() == PowerOff(old(State()))
    {
      if !powered { return; }
      enable := Some(false);
      if ldo.Some? { ldo := Some(false); }
      balance := balance - 1;
      powered := false;
    }

    method Pulse() returns (code: int)
      requires Valid()
      modifies `enable, `resets
      ensures Valid() && (code == 0 <==> powered)
      ensures code == 0 ==> enable == Some(true) && resets as int == (old(resets) as int + 1) % 0x1_0000_0000
      ensures code != 0 ==> State() == old(State())
      ensures (State(), code) == Reset(old(State()))
    {
      if !powered { return EHOSTDOWN; }
      enable := Some(false);
      enable := Some(true);
      resets := if resets == 0xffff_ffff then 0 else resets + 1;
      return 0;
    }

    method HoldReset(level: u32) returns (code: int)
      requires Valid()
      modifies `enable
      ensures Valid() && (code == 0 && powered ==> enable == Some(level != 0))
      ensures code != 0 || !powered ==> State() == old(State())
      ensures (State(), code) == ResetControl(old(State()), level)
    {
      if level > 1 { return EINVAL; }
      if !powered { return if level == 1 then EHOSTDOWN else 0; }
      enable := Some(level == 1);
      return 0;
    }

    method Execute(x: Transfer, a: Answers) returns (code: int)
      requires Valid() && !removing
      modifies this
      ensures Valid() && !removing
      ensures code != 0 ==> Settings(State()) == Settings(old(State()))
      ensures x.opcode == 0x05 && x.len == 0 ==> !powered && code == 0
      ensures x.opcode == 0x05 && x.len == 1 ==> (powered <==> code == 0)
      ensures x.opcode == 0x05 && x.len > 1 ==> code == EINVAL
      ensures x.opcode != 0x05 ==> powered == old(powered)
      ensures clock == if x.opcode == 0x06 then x.speed else if x.opcode == 0x10 then 0 else old(clock)
      ensures spi == if x.opcode == 0x1a then x.len else old(spi)
      ensures x.opcode != 0x14 ==> kind == old(kind)
      ensures x.opcode != 0x04 ==> resets == old(resets)
      ensures (State(), code) == Run(old(State()), x, a)
    {
      FailedRunChangesNoSetting(State(), x, a);
      RunKeepsBalance(State(), x, a);
      RunChanges(State(), x, a);
      RunPowers(State(), x, a);
      hide Balanced, Settings;
      code := 0;
      match x.opcode {
        case 0x04 => code := Pulse();
        case 0x05 =>
          if x.len > 1 { return EINVAL; }
          if x.len == 1 { code := SwitchOn(a); } else { SwitchOff(); }
        case 0x07 => code := HoldReset(x.len);
        case 0x06 => clock := x.speed;
        case 0x10 => clock := 0;
        case 0x11 =>
        case 0x14 => kind := Signed(x.len);
        case 0x1a => spi := x.len;
        case 0x1f => code := if !x.receives then EINVAL else if a.copyOut then 0 else EFAULT;
        case _ => code := if IsReserved(x.opcode) then 0 else EOPNOTSUPP;
      }
    }

    method OnIoctl(cmd: Command, answers: seq<Answers>) returns (code: int)
      requires Valid() && Delivered(cmd, answers)
      modifies this
      ensures Valid() && removing == old(removing)
      ensures old(removing) ==> code != 0 && State() == old(State())
      ensures (State(), code) == Ioctl(old(State()), cmd, answers)
    {
      if !cmd.known { return ENOTTY; }
      if cmd.size == 0 || cmd.size % TRANSFER_SIZE != 0 { return EINVAL; }
      if !cmd.admin { return EPERM; }
      if cmd.copied.None? { return EFAULT; }
      if removing { return ENODEV; }
      var xs := cmd.copied.value;
      ghost var s := State();
      code := 0;
      var i := 0;
      while i < |xs|
        invariant i <= |xs| && code == 0 && Valid() && !removing
        invariant Batch(s, xs, answers) == Batch(State(), xs[i..], answers[i..])
      {
        code := Execute(xs[i], answers[i]);
        if code != 0 { return; }
        i := i + 1;
        assert xs[i - 1..][1..] == xs[i..] && answers[i - 1..][1..] == answers[i..];
      }
    }

    method OnStorePower(on: bool, a: Answers) returns (code: int)
      requires Valid()
      modifies `supply, `ldo, `enable, `balance, `powered
      ensures Valid()
      ensures old(removing) ==> code != 0 && State() == old(State())
      ensures code == 0 ==> powered == on && balance == (if on then 1 else 0)
      ensures code != 0 ==> powered == old(powered)
      ensures (State(), code) == StoredPower(old(State()), on, a)
    {
      if removing { return ENODEV; }
      if on { code := SwitchOn(a); } else { SwitchOff(); code := 0; }
    }

    /** remove and shutdown. */
    method OnRemove()
      requires Valid()
      modifies `removing, `ldo, `enable, `balance, `powered
      ensures Valid() && removing && !powered && balance == 0
      ensures State() == PowerOff(old(State()).(removing := true))
    {
      removing := true;
      SwitchOff();
    }
  }
}
