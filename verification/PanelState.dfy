/**
 The state of the fingerprint-capable panel (kernel/drivers/panel-samsung-ana38407.c)
 and what each callback does to it, as functions of the bus's behaviour.
 */
module PanelState {
  import opened Bytes

  const MAX_BRIGHTNESS: nat := 0x7ff
  const FOD_BRIGHTNESS: nat := 1623
  const FOD_WATCHDOG_MS: nat := 15000
  const CONTROL_NORMAL: nat := 0x28
  const CONTROL_FOD: nat := 0xe0
  const SUPPLIES: nat := 4

  /** A bus write succeeds, or reports failure before or after taking effect. */
  datatype Outcome = Done | Lost | Late
  type Bus = nat -> Outcome

  /** The writes that matter here: registers 0x53, 0x51 and 0x7a, the level keys 0xf0 and
      0xf1, sleep and display state.  Init tables and DSC data are Other. */
  datatype Command =
    | Other
    | Control(value: nat)
    | Level(value: nat)
    | Circle(on: bool)
    | Key1(open: bool)
    | Key2(open: bool)
    | Awake(on: bool)
    | Lit(on: bool)

  /** The panel's side, and whether every write since power-on succeeded. */
  datatype Ddic = Ddic(control: nat, level: nat, circle: bool, key1: bool, key2: bool,
                       awake: bool, lit: bool, clean: bool)

  const AFTER_RESET: Ddic := Ddic(0, 0, false, false, false, false, false, true)

  datatype Ctx = Ctx(userBrightness: nat, prepared: bool, enabled: bool, fodMode: bool, fodCircle: bool,
                     watchdog: Option<nat>, rails: int, ddic: Ddic)

  /** A callback's new state and whether it returned success. */
  datatype Result = Result(ctx: Ctx, ok: bool)

  /** The circle register answers only while its level key is open. */
  function Apply(d: Ddic, c: Command): Ddic {
    match c
    case Other => d
    case Control(v) => d.(control := v)
    case Level(v) => d.(level := v)
    case Circle(on) => if d.key2 then d.(circle := on) else d
    case Key1(open) => d.(key1 := open)
    case Key2(open) => d.(key2 := open)
    case Awake(on) => d.(awake := on)
    case Lit(on) => d.(lit := on)
  }

  function ApplyAll(d: Ddic, cs: seq<Command>): Ddic
    decreases |cs|
  {
    if cs == [] then d else ApplyAll(Apply(d, cs[0]), cs[1..])
  }

  function Send(d: Ddic, c: Command, o: Outcome): Ddic {
    match o
    case Done => Apply(d, c)
    case Lost => d.(clean := false)
    case Late => Apply(d, c).(clean := false)
  }

  /** The mipi_dsi_*_multi calls: after the first error the rest are skipped. */
  function SendMulti(d: Ddic, cs: seq<Command>, bus: Bus, from: nat): (Ddic, bool)
    decreases |cs|
  {
    if cs == [] then (d, true)
    else if bus(from).Done? then SendMulti(Apply(d, cs[0]), cs[1..], bus, from + 1)
    else (Send(d, cs[0], bus(from)), false)
  }

  function EnterFod(): seq<Command> {
    [Key1(true), Control(CONTROL_FOD), Level(FOD_BRIGHTNESS), Other, Other, Key1(false)]
  }

  function LeaveFod(user: nat): seq<Command> {
    [Key1(true), Control(CONTROL_NORMAL), Level(user), Key1(false)]
  }

  function FodSequence(user: nat, enable: bool): seq<Command> {
    if enable then EnterFod() else LeaveFod(user)
  }

  function Others(n: nat): seq<Command> { seq(n, _ => Other) }

  /** Writes under the first level key, and under both. */
  function Under1(cs: seq<Command>): seq<Command> { [Key1(true)] + cs + [Key1(false)] }
  function Under2(cs: seq<Command>): seq<Command> { [Key1(true), Key2(true)] + cs + [Key1(false), Key2(false)] }

  function BeforeSleepOut(): seq<Command> {
    Under2(Others(3)) + Under2(Others(3))
  }

  function AfterSleepOut(): seq<Command> {
    Under1([]) + Under2(Others(3)) + Under2(Others(9)) + Under1(Others(1)) + Under1(Others(4)) + Under1(Others(2))
    + [Other]
  }

  /** ana38407_on. */
  function PowerOnSequence(user: nat): seq<Command> {
    BeforeSleepOut() + [Awake(true)] + AfterSleepOut() + LeaveFod(user) + Under1(Others(1))
  }

  function LightSequence(): seq<Command> { [Key1(true), Lit(true), Key1(false)] }

  /** ana38407_write_fod_circle_locked: the relock is sent whatever happened before it. */
  function SendCircle(d: Ddic, on: bool, bus: Bus, from: nat): (Ddic, bool) {
    var d1 := Send(d, Key2(true), bus(from));
    var d2 := if bus(from).Done? then Send(d1, Circle(on), bus(from + 1)) else d1;
    var d3 := Send(d2, Key2(false), bus(from + 2));
    (d3, bus(from).Done? && bus(from + 1).Done? && bus(from + 2).Done?)
  }

  /** ana38407_fod_cleanup_locked. */
  function Cleanup(c: Ctx, bus: Bus): Result {
    var (d1, ok1) := if c.fodCircle then SendCircle(c.ddic, false, bus, 0) else (c.ddic, true);
    var (d2, ok2) := if c.fodMode then SendMulti(d1, LeaveFod(c.userBrightness), bus, 3) else (d1, true);
    Result(c.(fodCircle := false, fodMode := false, ddic := d2), ok1 && ok2)
  }

  function UpdateWatchdog(c: Ctx, now: nat): Ctx {
    c.(watchdog := if c.fodMode || c.fodCircle then Some(now + FOD_WATCHDOG_MS) else None)
  }

  /** vddio first, then the other three together. */
  datatype Power = FirstFails | OthersFail | PowerGood

  function Prepare(c: Ctx, power: Power, bus: Bus): Result {
    if c.prepared then Result(c, true)
    else if !power.PowerGood? then Result(c, false)
    else
      var (d, ok) := SendMulti(AFTER_RESET, PowerOnSequence(c.userBrightness), bus, 0);
      Result(if ok then c.(prepared := true, rails := c.rails + SUPPLIES, ddic := d) else c.(ddic := d), ok)
  }

  function Enable(c: Ctx, bus: Bus): Result {
    if !c.prepared then Result(c, false)
    else if c.enabled then Result(c, true)
    else
      var (d, ok) := SendMulti(c.ddic, LightSequence(), bus, 0);
      Result(c.(ddic := d, enabled := ok), ok)
  }

  function Disable(c: Ctx, bus: Bus): Result {
    if !c.enabled then Result(c, true)
    else
      var cleaned := Cleanup(c, bus);
      var d := Send(cleaned.ctx.ddic, Lit(false), bus(10));
      Result(cleaned.ctx.(enabled := false, ddic := d), cleaned.ok && bus(10).Done?)
  }

  function Unprepare(c: Ctx, bus: Bus): Result {
    if !c.prepared then Result(c, true)
    else
      var cleaned := Cleanup(c, bus);
      var d := Send(cleaned.ctx.ddic, Awake(false), bus(10));
      Result(cleaned.ctx.(enabled := false, prepared := false, ddic := d,
                          rails := c.rails - SUPPLIES),
             cleaned.ok && bus(10).Done?)
  }

  function SetBacklight(c: Ctx, value: nat, bus: Bus): Result {
    var user := if value < MAX_BRIGHTNESS then value else MAX_BRIGHTNESS;
    if c.prepared && !c.fodMode
    then Result(c.(userBrightness := user, ddic := Send(c.ddic, Level(user), bus(0))), bus(0).Done?)
    else Result(c.(userBrightness := user), true)
  }

  function StoreFodMode(c: Ctx, enable: bool, bus: Bus, now: nat): Result {
    if !c.prepared || !c.enabled then Result(c, false)
    else if c.fodMode == enable then Result(UpdateWatchdog(c, now), true)
    else if enable then
      var (d, ok) := SendMulti(c.ddic, EnterFod(), bus, 0);
      if ok then Result(UpdateWatchdog(c.(fodMode := true, ddic := d), now), true)
      else Result(c.(ddic := SendMulti(d, LeaveFod(c.userBrightness), bus, 6).0), false)
    else
      var cleaned := Cleanup(c, bus);
      Result(UpdateWatchdog(cleaned.ctx, now), cleaned.ok)
  }

  function StoreFodCircle(c: Ctx, enable: bool, bus: Bus, now: nat): Result {
    if !c.prepared || !c.enabled || (enable && !c.fodMode) then Result(c, false)
    else if c.fodCircle == enable then Result(UpdateWatchdog(c, now), true)
    else
      var (d, ok) := SendCircle(c.ddic, enable, bus, 0);
      var d' := if !ok && enable then SendCircle(d, false, bus, 3).0 else d;
      Result(UpdateWatchdog(c.(ddic := d', fodCircle := if ok then enable else c.fodCircle), now), ok)
  }

  /** ana38407_fod_watchdog_work. */
  function Watchdog(c: Ctx, bus: Bus): Ctx {
    if c.prepared && c.enabled then Cleanup(c, bus).ctx else c.(fodCircle := false, fodMode := false)
  }

  // ------------------------------------------------------------------ bus sequences

  /** A multi sequence succeeds exactly when all its writes do, and then applies them all. */
  lemma {:induction false} MultiCleanIff(d: Ddic, cs: seq<Command>, bus: Bus, from: nat)
    requires d.clean
    ensures SendMulti(d, cs, bus, from).1 <==> SendMulti(d, cs, bus, from).0.clean
    decreases |cs|
  {
    if cs != [] && bus(from).Done? {
      MultiCleanIff(Apply(d, cs[0]), cs[1..], bus, from + 1);
    }
  }

  /** No multi sequence ever clears the record of a failure. */
  lemma {:induction false} MultiKeepsDirt(d: Ddic, cs: seq<Command>, bus: Bus, from: nat)
    requires !d.clean
    ensures !SendMulti(d, cs, bus, from).0.clean
    decreases |cs|
  {
    if cs != [] && bus(from).Done? {
      MultiKeepsDirt(Apply(d, cs[0]), cs[1..], bus, from + 1);
    }
  }

  /** And then it has applied them all, in order. */
  lemma {:induction false} MultiAppliesAll(d: Ddic, cs: seq<Command>, bus: Bus, from: nat)
    requires SendMulti(d, cs, bus, from).1
    ensures SendMulti(d, cs, bus, from).0 == ApplyAll(d, cs)
    decreases |cs|
  {
    if cs != [] {
      MultiAppliesAll(Apply(d, cs[0]), cs[1..], bus, from + 1);
    }
  }

  lemma MultiCons(d: Ddic, c: Command, rest: seq<Command>, bus: Bus, from: nat)
    ensures SendMulti(d, [c] + rest, bus, from)
         == if bus(from).Done? then SendMulti(Apply(d, c), rest, bus, from + 1)
            else (Send(d, c, bus(from)), false)
  {
    assert ([c] + rest)[1..] == rest;
  }

  lemma MultiNone(d: Ddic, bus: Bus, from: nat)
    ensures SendMulti(d, [], bus, from) == (d, true)
  {
  }

  /** One write: it counts as clean exactly if it succeeded. */
  lemma SendOne(d: Ddic, c: Command, o: Outcome)
    ensures var d' := if o.Lost? then d else Apply(d, c);
      Send(d, c, o) == d'.(clean := d.clean && o.Done?)
  {
  }

  lemma {:induction false} ApplyBoth(d: Ddic, a: seq<Command>, b: seq<Command>)
    ensures ApplyAll(d, a + b) == ApplyAll(ApplyAll(d, a), b)
    decreases |a|
  {
    if a == [] {
      assert a + b == b;
    } else {
      assert (a + b)[1..] == a[1..] + b;
      ApplyBoth(Apply(d, a[0]), a[1..], b);
    }
  }

  lemma {:induction false} OthersEffect(d: Ddic, n: nat)
    ensures ApplyAll(d, Others(n)) == d
  {
    if n > 0 {
      assert Others(n)[1..] == Others(n - 1);
      OthersEffect(d, n - 1);
    }
  }

  lemma OneEffect(d: Ddic, c: Command)
    ensures ApplyAll(d, [c]) == Apply(d, c)
  {
  }

  lemma TwoEffect(d: Ddic, a: Command, b: Command)
    ensures ApplyAll(d, [a, b]) == Apply(Apply(d, a), b)
  {
    assert [a, b] == [a] + [b];
    ApplyBoth(d, [a], [b]);
  }

  /** Whatever is written under a key, the key is closed afterwards. */
  lemma Under1Effect(d: Ddic, cs: seq<Command>)
    ensures ApplyAll(d, Under1(cs)) == ApplyAll(d.(key1 := true), cs).(key1 := false)
  {
    ApplyBoth(d, [Key1(true)] + cs, [Key1(false)]);
    ApplyBoth(d, [Key1(true)], cs);
  }

  lemma Under2Effect(d: Ddic, n: nat)
    ensures ApplyAll(d, Under2(Others(n))) == d.(key1 := false, key2 := false)
  {
    ApplyBoth(d, [Key1(true), Key2(true)] + Others(n), [Key1(false), Key2(false)]);
    ApplyBoth(d, [Key1(true), Key2(true)], Others(n));
    TwoEffect(d, Key1(true), Key2(true));
    OthersEffect(d.(key1 := true, key2 := true), n);
    TwoEffect(d.(key1 := true, key2 := true), Key1(false), Key2(false));
  }

  lemma UnderOthersEffect(d: Ddic, n: nat)
    ensures ApplyAll(d, Under1(Others(n))) == d.(key1 := false)
  {
    Under1Effect(d, Others(n));
    OthersEffect(d.(key1 := true), n);
  }

  lemma FodSequenceEffect(d: Ddic, user: nat, enable: bool)
    ensures ApplyAll(d, FodSequence(user, enable))
         == d.(control := if enable then CONTROL_FOD else CONTROL_NORMAL,
               level := if enable then FOD_BRIGHTNESS else user,
               key1 := false)
  {
    var level := Level(if enable then FOD_BRIGHTNESS else user);
    var control := Control(if enable then CONTROL_FOD else CONTROL_NORMAL);
    var rest := Others(if enable then 2 else 0);
    assert FodSequence(user, enable) == Under1([control, level] + rest);
    var d1 := d.(key1 := true);
    Under1Effect(d, [control, level] + rest);
    ApplyBoth(d1, [control, level], rest);
    TwoEffect(d1, control, level);
    OthersEffect(Apply(Apply(d1, control), level), |rest|);
  }

  lemma BeforeSleepOutEffect(d: Ddic)
    ensures ApplyAll(d, BeforeSleepOut()) == d.(key1 := false, key2 := false)
  {
    ApplyBoth(d, Under2(Others(3)), Under2(Others(3)));
    Under2Effect(d, 3);
    Under2Effect(d.(key1 := false, key2 := false), 3);
  }

  lemma AfterSleepOutEffect(d: Ddic)
    requires !d.key1 && !d.key2
    ensures ApplyAll(d, AfterSleepOut()) == d
  {
    assert Others(0) == [];
    hide Under1, Under2, Others, ApplyAll;
    var a, b, c, e, f, g := Under1([]), Under2(Others(3)), Under2(Others(9)), Under1(Others(1)),
                            Under1(Others(4)), Under1(Others(2));
    ApplyBoth(d, a + b + c + e + f + g, [Other]);
    ApplyBoth(d, a + b + c + e + f, g);
    ApplyBoth(d, a + b + c + e, f);
    ApplyBoth(d, a + b + c, e);
    ApplyBoth(d, a + b, c);
    ApplyBoth(d, a, b);
    UnderOthersEffect(d, 0);
    Under2Effect(d, 3);
    Under2Effect(d, 9);
    UnderOthersEffect(d, 1);
    UnderOthersEffect(d, 4);
    UnderOthersEffect(d, 2);
    OneEffect(d, Other);
  }

  /** After a reset the init sequence leaves an awake, dark panel with both keys closed, in
      normal control with the user's brightness. */
  lemma PowerOnEffect(user: nat)
    ensures ApplyAll(AFTER_RESET, PowerOnSequence(user))
         == AFTER_RESET.(control := CONTROL_NORMAL, level := user, awake := true)
  {
    hide BeforeSleepOut, AfterSleepOut, LeaveFod, Under1;
    var d1 := AFTER_RESET.(awake := true);
    var d2 := d1.(control := CONTROL_NORMAL, level := user);
    ApplyBoth(AFTER_RESET, BeforeSleepOut() + [Awake(true)] + AfterSleepOut() + LeaveFod(user), Under1(Others(1)));
    ApplyBoth(AFTER_RESET, BeforeSleepOut() + [Awake(true)] + AfterSleepOut(), LeaveFod(user));
    ApplyBoth(AFTER_RESET, BeforeSleepOut() + [Awake(true)], AfterSleepOut());
    ApplyBoth(AFTER_RESET, BeforeSleepOut(), [Awake(true)]);
    BeforeSleepOutEffect(AFTER_RESET);
    OneEffect(AFTER_RESET, Awake(true));
    AfterSleepOutEffect(d1);
    FodSequenceEffect(d1, user, false);
    UnderOthersEffect(d2, 1);
  }

  lemma LightEffect(d: Ddic)
    ensures ApplyAll(d, LightSequence()) == d.(lit := true, key1 := false)
  {
    assert LightSequence() == Under1([Lit(true)]);
    Under1Effect(d, [Lit(true)]);
    OneEffect(d.(key1 := true), Lit(true));
  }

  /** From fingerprint mode, the leave sequence restores normal brightness control if and
      only if its writes reach the 0x51 one and that one takes effect; when the user's
      brightness is the fingerprint one, already if the 0x53 write takes effect. */
  lemma LeaveRestoresIff(d: Ddic, user: nat, bus: Bus, from: nat)
    requires d.control == CONTROL_FOD && d.level == FOD_BRIGHTNESS
    ensures var d' := SendMulti(d, LeaveFod(user), bus, from).0;
      (d'.control == CONTROL_NORMAL && d'.level == user)
      <==> bus(from).Done? && if user == FOD_BRIGHTNESS then !bus(from + 1).Lost?
                              else bus(from + 1).Done? && !bus(from + 2).Lost?
  {
    LeaveUnrolled(d, user, bus, from);
  }

  /** What the leave sequence does from anywhere, write by write. */
  lemma LeaveUnrolled(d: Ddic, user: nat, bus: Bus, from: nat)
    ensures var (d', _) := SendMulti(d, LeaveFod(user), bus, from);
            var d1 := d.(key1 := true);
            var d2 := d.(key1 := true, control := CONTROL_NORMAL);
      if !bus(from).Done? then d' == Send(d, Key1(true), bus(from))
      else if !bus(from + 1).Done? then d' == Send(d1, Control(CONTROL_NORMAL), bus(from + 1))
      else if !bus(from + 2).Done? then d' == Send(d2, Level(user), bus(from + 2))
      else d' == Send(d.(key1 := true, control := CONTROL_NORMAL, level := user), Key1(false), bus(from + 3))
  {
    var rest2: seq<Command> := [Level(user)] + [Key1(false)];
    var rest1 := [Control(CONTROL_NORMAL)] + rest2;
    assert LeaveFod(user) == [Key1(true)] + rest1;
    assert [Key1(false)] + [] == [Key1(false)];
    hide SendMulti;
    var d1 := d.(key1 := true);
    var d2 := d1.(control := CONTROL_NORMAL);
    MultiCons(d, Key1(true), rest1, bus, from);
    MultiCons(d1, Control(CONTROL_NORMAL), rest2, bus, from + 1);
    MultiCons(d2, Level(user), [Key1(false)], bus, from + 2);
    MultiCons(d2.(level := user), Key1(false), [], bus, from + 3);
    MultiNone(d2.(level := user, key1 := false), bus, from + 4);
  }

  lemma LightUnrolled(d: Ddic, bus: Bus, from: nat)
    ensures var (d', _) := SendMulti(d, LightSequence(), bus, from);
            var d1 := d.(key1 := true);
      if !bus(from).Done? then d' == Send(d, Key1(true), bus(from))
      else if !bus(from + 1).Done? then d' == Send(d1, Lit(true), bus(from + 1))
      else d' == Send(d1.(lit := true), Key1(false), bus(from + 2))
  {
    var rest2: seq<Command> := [Key1(false)];
    var rest1 := [Lit(true)] + rest2;
    assert LightSequence() == [Key1(true)] + rest1;
    assert [Key1(false)] + [] == rest2;
    hide SendMulti;
    var d1 := d.(key1 := true);
    MultiCons(d, Key1(true), rest1, bus, from);
    MultiCons(d1, Lit(true), rest2, bus, from + 1);
    MultiCons(d1.(lit := true), Key1(false), [], bus, from + 2);
    MultiNone(d1.(lit := true, key1 := false), bus, from + 3);
  }
}
