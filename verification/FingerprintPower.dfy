/**
 The fingerprint sensor companion of kernel/drivers/egis_el721.c: power sequencing under
 one lock, the batched ioctl, removal, and the life of the device structure.
 */
module FingerprintPower {
  import opened Bytes

  const EPERM: int := -1
  const EFAULT: int := -14
  const ENODEV: int := -19
  const EINVAL: int := -22
  const ENOTTY: int := -25
  const EOPNOTSUPP: int := -95
  const EHOSTDOWN: int := -112

  const TRANSFER_SIZE: nat := 32
  const SENSOR_TYPE: int := 8

  newtype u8 = x: int | 0 <= x < 0x100
  newtype u32 = x: int | 0 <= x < 0x1_0000_0000

  /** supply, ldo and enable are the handles taken so far, the lines with their level;
      balance counts regulator_enable minus regulator_disable. */
  datatype Sensor = Sensor(supply: bool, ldo: Option<bool>, enable: Option<bool>, balance: int,
                           powered: bool, removing: bool,
                           resets: u32, kind: int, spi: u32, clock: u32)

  /** How each call that can fail answers during one operation: 0 is success.  A line that
      is acquired starts at whatever level it had. */
  datatype Answers = Answers(publish: int, getSupply: int,
                             getLdo: int, hasLdo: bool, ldoLevel: bool,
                             getEnable: int, enableLevel: bool,
                             railOn: int, driveLdo: int, driveEnable: int, copyOut: bool)

  datatype Transfer = Transfer(opcode: u8, len: u32, speed: u32, receives: bool)

  type Outcome = (Sensor, int)

  // ------------------------------------------------------------------ power sequencing

  function PrepareSupply(s: Sensor, a: Answers): Outcome {
    if s.supply then (s, 0)
    else if a.publish != 0 then (s, a.publish)
    else if a.getSupply != 0 then (s, a.getSupply)
    else (s.(supply := true), 0)
  }

  function PrepareLdo(s: Sensor, a: Answers): Outcome {
    if s.ldo.Some? then (s, 0)
    else if a.getLdo != 0 then (s, a.getLdo)
    else (s.(ldo := if a.hasLdo then Some(a.ldoLevel) else None), 0)
  }

  function PrepareEnable(s: Sensor, a: Answers): Outcome {
    if s.enable.Some? then (s, 0)
    else if a.getEnable != 0 then (s, a.getEnable)
    else (s.(enable := Some(a.enableLevel)), 0)
  }

  function Prepare(s: Sensor, a: Answers): Outcome {
    var (s1, c1) := PrepareSupply(s, a);
    if c1 != 0 then (s1, c1) else
    var (s2, c2) := PrepareLdo(s1, a);
    if c2 != 0 then (s2, c2) else PrepareEnable(s2, a)
  }

  function SetLdo(s: Sensor, level: bool): Sensor {
    if s.ldo.Some? then s.(ldo := Some(level)) else s
  }

  function PowerOn(s: Sensor, a: Answers): Outcome {
    if s.powered then (s, 0) else
    var (p, c) := Prepare(s, a);
    if c != 0 then (p, c)
    else if a.railOn != 0 then (p, a.railOn)
    else if p.ldo.Some? && a.driveLdo != 0 then (p, a.driveLdo)
    else if a.driveEnable != 0 then (SetLdo(p, false), a.driveEnable)
    else (SetLdo(p, true).(enable := Some(true), balance := p.balance + 1, powered := true), 0)
  }

  function PowerOff(s: Sensor): Sensor {
    if s.powered then SetLdo(s, false).(enable := Some(false), balance := s.balance - 1, powered := false) else s
  }

  // ------------------------------------------------------------------ one transfer

  function Reset(s: Sensor): Outcome {
    if !s.powered then (s, EHOSTDOWN)
    else (s.(enable := Some(true), resets := if s.resets == 0xffff_ffff then 0 else s.resets + 1), 0)
  }

  function ResetControl(s: Sensor, level: u32): Outcome {
    if level > 1 then (s, EINVAL)
    else if !s.powered then (s, if level == 1 then EHOSTDOWN else 0)
    else (s.(enable := Some(level == 1)), 0)
  }

  /** A C cast from u32 to int. */
  function Signed(x: u32): int {
    if x < 0x8000_0000 then x as int else x as int - 0x1_0000_0000
  }

  predicate IsReserved(opcode: u8) {
    opcode in {0xa4, 0xa5, 0xa8, 0x16, 0x17, 0x19, 0x1c}
  }

  function Run(s: Sensor, x: Transfer, a: Answers): Outcome {
    match x.opcode
    case 0x04 => Reset(s)
    case 0x05 =>
      if x.len > 1 then (s, EINVAL) else if x.len == 1 then PowerOn(s, a) else (PowerOff(s), 0)
    case 0x07 => ResetControl(s, x.len)
    case 0x06 => (s.(clock := x.speed), 0)
    case 0x10 => (s.(clock := 0), 0)
    case 0x11 => (s, 0)
    case 0x14 => (s.(kind := Signed(x.len)), 0)
    case 0x1a => (s.(spi := x.len), 0)
    case 0x1f => (s, if !x.receives then EINVAL else if a.copyOut then 0 else EFAULT)
    case _ => (s, if IsReserved(x.opcode) then 0 else EOPNOTSUPP)
  }

  /** What an operation can change that anyone can tell later: everything but the handles
      kept for the next power-on and the level of lines of an unpowered sensor. */
  function Settings(s: Sensor): Sensor {
    s.(supply := false, ldo := None, enable := if s.powered then s.enable else None)
  }

  /** A transfer that reports an error has changed no setting. */
  lemma FailedRunChangesNoSetting(s: Sensor, x: Transfer, a: Answers)
    ensures Run(s, x, a).1 != 0 ==> Settings(Run(s, x, a).0) == Settings(s)
  {
    if x.opcode == 0x05 && x.len == 1 && !s.powered {
      var p := Prepare(s, a).0;
      assert Settings(p) == Settings(s);
    }
  }

  // ------------------------------------------------------------------ batches

  /** State after the first n transfers, whatever each of them reported. */
  function After(s: Sensor, xs: seq<Transfer>, answers: seq<Answers>, n: nat): Sensor
    requires n <= |xs| == |answers|
  {
    if n == 0 then s else Run(After(s, xs, answers, n - 1), xs[n - 1], answers[n - 1]).0
  }

  function Report(s: Sensor, xs: seq<Transfer>, answers: seq<Answers>, n: nat): int
    requires n < |xs| == |answers|
  {
    Run(After(s, xs, answers, n), xs[n], answers[n]).1
  }

  ghost predicate Succeeds(s: Sensor, xs: seq<Transfer>, answers: seq<Answers>, n: nat)
    requires n <= |xs| == |answers|
  {
    forall i :: 0 <= i < n ==> Report(s, xs, answers, i) == 0
  }

  function Batch(s: Sensor, xs: seq<Transfer>, answers: seq<Answers>): Outcome
    requires |xs| == |answers|
    decreases |xs|
  {
    if xs == [] then (s, 0) else
    var (s', c) := Run(s, xs[0], answers[0]);
    if c != 0 then (s', c) else Batch(s', xs[1..], answers[1..])
  }

  lemma {:induction false} AfterShift(s: Sensor, xs: seq<Transfer>, answers: seq<Answers>, n: nat)
    requires n < |xs| == |answers|
    ensures After(s, xs, answers, n + 1) == After(Run(s, xs[0], answers[0]).0, xs[1..], answers[1..], n)
  {
    if n > 0 {
      AfterShift(s, xs, answers, n - 1);
    }
  }

  /** A batch leaves the settings of its longest error-free prefix and reports the error of
      the transfer right behind that prefix. */
  lemma {:induction false} BatchIsLongestGoodPrefix(s: Sensor, xs: seq<Transfer>, answers: seq<Answers>)
    returns (n: nat)
    requires |xs| == |answers|
    ensures n <= |xs| && Succeeds(s, xs, answers, n)
    ensures n < |xs| ==> Report(s, xs, answers, n) != 0
    ensures Batch(s, xs, answers).1 == if n < |xs| then Report(s, xs, answers, n) else 0
    ensures Settings(Batch(s, xs, answers).0) == Settings(After(s, xs, answers, n))
    ensures Batch(s, xs, answers).0 == After(s, xs, answers, if n < |xs| then n + 1 else n)
    decreases |xs|
  {
    if xs == [] {
      return 0;
    }
    var (s', c) := Run(s, xs[0], answers[0]);
    assert After(s, xs, answers, 0) == s;
    if c != 0 {
      FailedRunChangesNoSetting(s, xs[0], answers[0]);
      return 0;
    }
    var m := BatchIsLongestGoodPrefix(s', xs[1..], answers[1..]);
    forall i | 0 <= i < |xs| - 1
      ensures Report(s, xs, answers, i + 1) == Report(s', xs[1..], answers[1..], i)
    {
      AfterShift(s, xs, answers, i);
    }
    forall i | 0 <= i < m + 1 ensures Report(s, xs, answers, i) == 0 {
      if i > 0 {
        assert Report(s', xs[1..], answers[1..], i - 1) == 0;
      }
    }
    AfterShift(s, xs, answers, m);
    if m < |xs| - 1 {
      AfterShift(s, xs, answers, m + 1);
    } else if m > 0 {
      AfterShift(s, xs, answers, m - 1);
    }
    return m + 1;
  }

  // ------------------------------------------------------------------ the ioctl

  /** known: type, number and direction match; copied is None when memdup_user fails. */
  datatype Command = Command(known: bool, size: nat, admin: bool, copied: Option<seq<Transfer>>)

  predicate Delivered(cmd: Command, answers: seq<Answers>) {
    cmd.copied.Some? ==> |cmd.copied.value| == |answers| == cmd.size / TRANSFER_SIZE
  }

  function Ioctl(s: Sensor, cmd: Command, answers: seq<Answers>): Outcome
    requires Delivered(cmd, answers)
  {
    if !cmd.known then (s, ENOTTY)
    else if cmd.size == 0 || cmd.size % TRANSFER_SIZE != 0 then (s, EINVAL)
    else if !cmd.admin then (s, EPERM)
    else if cmd.copied.None? then (s, EFAULT)
    else if s.removing then (s, ENODEV)
    else Batch(s, cmd.copied.value, answers)
  }

  /** sensor_power written through sysfs. */
  function StoredPower(s: Sensor, on: bool, a: Answers): Outcome {
    if s.removing then (s, ENODEV) else if on then PowerOn(s, a) else (PowerOff(s), 0)
  }

  // ------------------------------------------------------------------ runs

  /** files are the open descriptors; bound lasts from probe until remove lets go. */
  datatype Device = Device(sensor: Sensor, files: set<nat>, bound: bool, refs: int, freed: bool)

  datatype Event =
    | UseIoctl(file: nat, cmd: Command, answers: seq<Answers>)
    | StorePower(on: bool, a: Answers)
    | StoreReset
    | OpenFile(file: nat)
    | CloseFile(file: nat)
    | Suspend
    | Shutdown
    | StartRemove
    | FinishRemove

  predicate Enabled(d: Device, e: Event) {
    match e
    case UseIoctl(f, cmd, answers) => f in d.files && Delivered(cmd, answers)
    case CloseFile(f) => f in d.files
    case OpenFile(f) => d.bound && f !in d.files
    case FinishRemove => d.bound && d.sensor.removing
    case _ => d.bound
  }

  function Drop(d: Device): Device {
    d.(refs := d.refs - 1, freed := d.refs - 1 == 0)
  }

  function Next(d: Device, e: Event): Device
    requires Enabled(d, e)
  {
    var s := d.sensor;
    match e
    case UseIoctl(_, cmd, answers) => d.(sensor := Ioctl(s, cmd, answers).0)
    case StorePower(on, a) => d.(sensor := StoredPower(s, on, a).0)
    case StoreReset => d.(sensor := if s.removing then s else Reset(s).0)
    case OpenFile(f) => if s.removing then d else d.(files := d.files + {f}, refs := d.refs + 1)
    case CloseFile(f) => Drop(d.(files := d.files - {f}))
    case Suspend => d.(sensor := PowerOff(s))
    case Shutdown => d.(sensor := PowerOff(s.(removing := true)))
    case StartRemove => d.(sensor := PowerOff(s.(removing := true)))
    case FinishRemove => Drop(d.(bound := false))
  }

  const PROBED := Sensor(false, None, None, 0, false, false, 0, SENSOR_TYPE, 0, 0)

  predicate Init(d: Device) {
    d == Device(PROBED, {}, true, 1, false)
  }

  /** The rail is enabled exactly once while powered and not at all otherwise, and a powered
      sensor holds everything it needs. */
  predicate RailMatches(s: Sensor) {
    && s.balance == (if s.powered then 1 else 0)
    && (s.powered ==> s.supply && s.enable.Some? && s.ldo != Some(false))
  }

  /** Moreover a sensor being removed is off. */
  predicate Balanced(s: Sensor) {
    RailMatches(s) && (s.removing ==> !s.powered)
  }

  predicate Inv(d: Device) {
    && Balanced(d.sensor)
    && d.refs == |d.files| + (if d.bound then 1 else 0)
    && (d.freed <==> d.refs == 0)
    && (!d.bound ==> d.sensor.removing)
  }

  lemma RunKeepsBalance(s: Sensor, x: Transfer, a: Answers)
    requires Balanced(s) && !s.removing
    ensures Balanced(Run(s, x, a).0) && !Run(s, x, a).0.removing
  {
  }

  lemma {:induction false} BatchKeepsBalance(s: Sensor, xs: seq<Transfer>, answers: seq<Answers>)
    requires Balanced(s) && !s.removing && |xs| == |answers|
    ensures Balanced(Batch(s, xs, answers).0) && !Batch(s, xs, answers).0.removing
    decreases |xs|
  {
    if xs != [] {
      RunKeepsBalance(s, xs[0], answers[0]);
      if Run(s, xs[0], answers[0]).1 == 0 {
        BatchKeepsBalance(Run(s, xs[0], answers[0]).0, xs[1..], answers[1..]);
      }
    }
  }

  lemma IoctlKeepsBalance(s: Sensor, cmd: Command, answers: seq<Answers>)
    requires Balanced(s) && Delivered(cmd, answers)
    ensures var s' := Ioctl(s, cmd, answers).0; Balanced(s') && s'.removing == s.removing
  {
    hide Batch, Run;
    if cmd.copied.Some? && |cmd.copied.value| == |answers| && !s.removing {
      BatchKeepsBalance(s, cmd.copied.value, answers);
    }
  }

  lemma PowerKeepsBalance(s: Sensor, on: bool, a: Answers)
    requires Balanced(s)
    ensures var s' := StoredPower(s, on, a).0; Balanced(s') && s'.removing == s.removing
  {
  }

  lemma StepKeepsInv(d: Device, e: Event)
    requires Inv(d) && Enabled(d, e)
    ensures Inv(Next(d, e))
    ensures d.sensor.removing ==> Next(d, e).sensor.removing
  {
    hide Ioctl, StoredPower, PowerOn;
    match e
    case UseIoctl(_, cmd, answers) =>
      IoctlKeepsBalance(d.sensor, cmd, answers);
    case StorePower(on, a) =>
      PowerKeepsBalance(d.sensor, on, a);
    case CloseFile(f) =>
      assert |d.files - {f}| == |d.files| - 1;
    case _ =>
  }

  ghost predicate IsRun(run: seq<Device>, events: seq<Event>) {
    && |run| == |events| + 1
    && Init(run[0])
    && forall i :: 0 <= i < |events| ==> Enabled(run[i], events[i]) && run[i + 1] == Next(run[i], events[i])
  }

  /** The regulator's enable balance is 1 exactly while `powered` holds, after every run. */
  lemma {:induction false} RailBalanceIsPowered(run: seq<Device>, events: seq<Event>, i: nat)
    requires IsRun(run, events) && i < |run|
    ensures Inv(run[i])
    ensures run[i].sensor.powered <==> run[i].sensor.balance == 1
    ensures !run[i].sensor.powered <==> run[i].sensor.balance == 0
  {
    if i > 0 {
      RailBalanceIsPowered(run, events, i - 1);
      StepKeepsInv(run[i - 1], events[i - 1]);
    }
  }

  /** From the moment `removing` is set the sensor is off, and stays off. */
  lemma {:induction false} RemovingIsOffForever(run: seq<Device>, events: seq<Event>, i: nat, j: nat)
    requires IsRun(run, events) && i <= j < |run| && run[i].sensor.removing
    ensures run[j].sensor.removing && !run[j].sensor.powered && run[j].sensor.balance == 0
  {
    RailBalanceIsPowered(run, events, j);
    if i < j {
      RemovingIsOffForever(run, events, i, j - 1);
      RailBalanceIsPowered(run, events, j - 1);
      StepKeepsInv(run[j - 1], events[j - 1]);
    }
  }

  /** No callback ever finds its structure freed, and it is freed exactly when the device is
      unbound and the last file closed. */
  lemma NoUseAfterFree(run: seq<Device>, events: seq<Event>, i: nat)
    requires IsRun(run, events) && i < |run|
    ensures forall e :: Enabled(run[i], e) ==> !run[i].freed
    ensures run[i].freed <==> !run[i].bound && run[i].files == {}
  {
    RailBalanceIsPowered(run, events, i);
    forall e | Enabled(run[i], e) ensures !run[i].freed {
      assert run[i].bound || run[i].files != {};
    }
  }

  // ------------------------------------------------------------------ what each request does

  /** Switching on succeeds exactly if every handle still missing can be taken and the rail
      and the lines there are can be driven; then all of them are on. */
  lemma PowerOnIff(s: Sensor, a: Answers)
    requires !s.powered
    ensures var (s', code) := PowerOn(s, a);
            var hasLdo := s.ldo.Some? || a.hasLdo;
      && (code == 0 <==>
            && (s.supply || (a.publish == 0 && a.getSupply == 0))
            && (s.ldo.Some? || a.getLdo == 0)
            && (s.enable.Some? || a.getEnable == 0)
            && a.railOn == 0 && (hasLdo ==> a.driveLdo == 0) && a.driveEnable == 0)
      && (code == 0 ==> s'.powered && s'.enable == Some(true) && s'.ldo == if hasLdo then Some(true) else None)
      && (code != 0 ==> !s'.powered && s'.balance == s.balance)
  {
  }

  /** Who changes which setting, field by field. */
  lemma RunChanges(s: Sensor, x: Transfer, a: Answers)
    ensures var (s', code) := Run(s, x, a);
      && s'.clock == (if x.opcode == 0x06 then x.speed else if x.opcode == 0x10 then 0 else s.clock)
      && s'.spi == (if x.opcode == 0x1a then x.len else s.spi)
      && s'.kind == (if x.opcode == 0x14 then Signed(x.len) else s.kind)
      && (x.opcode != 0x04 || !s.powered ==> s'.resets == s.resets)
      && s'.removing == s.removing
  {
    PowerOnKeeps(s, a);
    hide PowerOn, Reset;
    ResetCounts(s);
  }

  /** Taking handles changes nothing but handles. */
  lemma PrepareKeeps(s: Sensor, a: Answers)
    ensures var p := Prepare(s, a).0; p == s.(supply := p.supply, ldo := p.ldo, enable := p.enable)
  {
  }

  lemma PowerOnKeeps(s: Sensor, a: Answers)
    ensures var s' := PowerOn(s, a).0;
      s'.clock == s.clock && s'.spi == s.spi && s'.kind == s.kind && s'.resets == s.resets && s'.removing == s.removing
  {
    PrepareKeeps(s, a);
    hide Prepare;
  }

  /** A reset counts modulo 2^32 while powered and does nothing otherwise. */
  lemma ResetCounts(s: Sensor)
    ensures var s' := Reset(s).0;
      && (s.powered ==> s'.resets as int == (s.resets as int + 1) % 0x1_0000_0000 && s'.enable == Some(true))
      && s' == s.(resets := s'.resets, enable := s'.enable)
      && (!s.powered ==> s' == s)
  {
  }

  /** The sensor type is the 32-bit value read as a signed one. */
  lemma SignedIsTwosComplement(x: u32)
    ensures -0x8000_0000 <= Signed(x) < 0x8000_0000
    ensures Signed(x) == x as int || Signed(x) == x as int - 0x1_0000_0000
  {
  }

  /** What the power, reset and model requests do and report. */
  lemma RunPowers(s: Sensor, x: Transfer, a: Answers)
    ensures var (s', code) := Run(s, x, a);
      && (x.opcode != 0x05 ==> s'.powered == s.powered)
      && (x.opcode == 0x05 && x.len == 0 ==> !s'.powered && code == 0)
      && (x.opcode == 0x05 && x.len == 1 ==> (s'.powered <==> code == 0) && (s.powered ==> s' == s))
      && (x.opcode == 0x05 && x.len > 1 ==> s' == s && code == EINVAL)
      && (x.opcode == 0x04 ==> code == (if s.powered then 0 else EHOSTDOWN))
      && (x.opcode == 0x07 ==>
            code == (if x.len > 1 then EINVAL else if x.len == 1 && !s.powered then EHOSTDOWN else 0))
      && (x.opcode == 0x07 && s.powered && x.len <= 1 ==> s'.enable == Some(x.len == 1))
      && (x.opcode == 0x1f ==> s' == s && code == (if !x.receives then EINVAL else if !a.copyOut then EFAULT else 0))
  {
  }

  /** Every other opcode changes nothing; the known ones among them succeed. */
  lemma RunIgnores(s: Sensor, x: Transfer, a: Answers)
    requires x.opcode !in {0x04, 0x05, 0x06, 0x07, 0x10, 0x14, 0x1a, 0x1f}
    ensures var known: set<u8> := {0x11, 0xa4, 0xa5, 0xa8, 0x16, 0x17, 0x19, 0x1c};
      Run(s, x, a) == (s, if x.opcode in known then 0 else EOPNOTSUPP)
  {
  }

  /** The checks of the ioctl come before any transfer, in this order. */
  lemma IoctlRefuses(s: Sensor, cmd: Command, answers: seq<Answers>)
    requires Delivered(cmd, answers)
    ensures var (s', code) := Ioctl(s, cmd, answers);
            var sized := cmd.size > 0 && cmd.size % TRANSFER_SIZE == 0;
      && (!cmd.known ==> s' == s && code == ENOTTY)
      && (cmd.known && !sized ==> s' == s && code == EINVAL)
      && (cmd.known && sized && !cmd.admin ==> s' == s && code == EPERM)
      && (cmd.known && sized && cmd.admin && cmd.copied.None? ==> s' == s && code == EFAULT)
      && (cmd.known && sized && cmd.admin && cmd.copied.Some? && s.removing ==> s' == s && code == ENODEV)
      && (cmd.known && sized && cmd.admin && cmd.copied.Some? && !s.removing ==>
            (s', code) == Batch(s, cmd.copied.value, answers))
  {
  }

  /** Opening works until removal begins; suspend, shutdown and removal switch off. */
  lemma CallbackEffects(d: Device, f: nat)
    requires Inv(d) && d.bound && f !in d.files
    ensures Next(d, OpenFile(f)).files == (if d.sensor.removing then d.files else d.files + {f})
    ensures !Next(d, Suspend).sensor.powered && Next(d, Suspend).sensor.removing == d.sensor.removing
    ensures Next(d, Shutdown).sensor.removing && !Next(d, Shutdown).sensor.powered && Next(d, Shutdown).bound
    ensures Next(d, StartRemove).sensor.removing && !Next(d, StartRemove).sensor.powered
  {
  }
}
