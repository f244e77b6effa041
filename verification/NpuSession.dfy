/**
 One NPU service session, scripts/run-npu-session.py: whatever fails during startup or
 in the main loop, the `finally` block unwinds it.  The session leaves a trace of what it
 did to modules, child processes and the CDSP; folds over the trace say what is left.
 */
module NpuSession {
  import opened Bytes

  const RESTART_SETTLE_SECONDS: real := 60.0

  type Name = string
  datatype Act =
    | Insmod(name: Name) | Rmmod(name: Name)             // transient modules only
    | Spawned(child: nat) | Exited(child: nat) | Retired(child: nat) | Killed(child: nat)
    | CdspStart(time: real) | CdspStop | CdspDied

  /** What goes wrong: `fault(n)` at the n-th fallible call of startup. */
  datatype Env = Env(now: real, fault: nat -> bool, startTakesEffect: bool, stopEarly: bool, stopWaiting: bool,
                     cdspDies: bool, exits: nat -> bool, startupTakes: real, end: real)

  function UpAfter(up: bool, a: Act): bool {
    match a
    case CdspStart(_) => true
    case CdspStop | CdspDied => false
    case _ => up
  }

  function AliveAfter(alive: set<nat>, a: Act): set<nat> {
    match a
    case Spawned(c) => alive + {c}
    case Exited(c) => alive - {c}
    case Retired(c) => alive - {c}
    case Killed(c) => alive - {c}
    case _ => alive
  }

  /** None once a module is removed that is not the last one loaded. */
  function StackAfter(stack: Option<seq<Name>>, a: Act): Option<seq<Name>> {
    if stack.None? then None
    else
      var top := |stack.value| - 1;
      match a
      case Insmod(m) => Some(stack.value + [m])
      case Rmmod(m) => if top < 0 || stack.value[top] != m then None else Some(stack.value[..top])
      case _ => stack
  }

  /** The child processes a trace has started, in order. */
  function Children(t: seq<Act>): seq<nat> {
    if t == [] then []
    else
      var before, a := Children(t[..|t| - 1]), t[|t| - 1];
      if a.Spawned? then before + [a.child] else before
  }

  /** What a trace leaves behind: the CDSP up, children alive, transient modules present. */
  datatype Left = Left(up: bool, alive: set<nat>, stack: Option<seq<Name>>)

  function After(t: seq<Act>): Left {
    if t == [] then Left(false, {}, Some([]))
    else
      var before, a := After(t[..|t| - 1]), t[|t| - 1];
      Left(UpAfter(before.up, a), AliveAfter(before.alive, a), StackAfter(before.stack, a))
  }

  // ------------------------------------------------------------------ what a session does

  const INTENTS: Name := "gts9u_cdsp_intents_probe"
  const FASTRPC: Name := "gts9u_fastrpc_prepared"

  /** Loads and spawns up to the first one that fails. */
  function StartupActs(env: Env): seq<Act> {
    if env.fault(0) || env.fault(1) || env.fault(2) || env.fault(3) || env.fault(4) || env.fault(5) then []
    else if env.fault(6) || env.fault(7) then [Insmod(INTENTS)]
    else [Insmod(INTENTS), Insmod(FASTRPC)]
         + if env.fault(8) then [] else if env.fault(9) then [Spawned(0)]
           else if env.fault(10) then [Spawned(0), Spawned(1)] else [Spawned(0), Spawned(1), Spawned(2)]
  }

  function StartupDone(env: Env): bool {
    (forall n :: 0 <= n <= 10 ==> !env.fault(n)) && !env.stopEarly
  }

  function StartActs(env: Env, time: real): seq<Act> {
    if !env.fault(11) || env.startTakesEffect then [CdspStart(time)] else []
  }

  function ServeActs(env: Env): seq<Act> {
    if env.stopWaiting || env.fault(12) then []
    else [Retired(0)] + if env.fault(13) || env.fault(14) then [] else [Spawned(3)]
  }

  function EndOf(child: nat, env: Env): Act {
    if env.exits(child) then Exited(child) else Killed(child)
  }

  /** One end for each child still alive, in the order they were spawned. */
  function KillActs(children: seq<nat>, alive: set<nat>, env: Env): seq<Act> {
    if children == [] then []
    else if children[0] in alive
    then [EndOf(children[0], env)] + KillActs(children[1..], alive - {children[0]}, env)
    else KillActs(children[1..], alive, env)
  }

  function RmmodActs(loaded: seq<Name>): seq<Act> {
    if loaded == [] then []
    else [Rmmod(loaded[|loaded| - 1])] + RmmodActs(loaded[..|loaded| - 1])
  }

  function StopActs(t: seq<Act>, started: bool, env: Env): seq<Act> {
    if env.cdspDies then [CdspDied] else if started && After(t).up then [CdspStop] else []
  }

  /** The wait before startup. */
  function Settle(stamp: Option<real>, now: real): real {
    var elapsed := if stamp.Some? then now - stamp.value else RESTART_SETTLE_SECONDS;
    if 0.0 <= elapsed < RESTART_SETTLE_SECONDS then RESTART_SETTLE_SECONDS - elapsed else 0.0
  }

  /** The try block. */
  function TryActs(env: Env, stamp: Option<real>): seq<Act> {
    StartupActs(env)
    + if !StartupDone(env) then []
      else StartActs(env, env.now + Settle(stamp, env.now) + env.startupTakes)
           + if env.fault(11) then [] else ServeActs(env)
  }

  /** The finally block after trace t. */
  function UnwindActs(t: seq<Act>, loaded: seq<Name>, children: seq<nat>, started: bool, env: Env): seq<Act> {
    StopActs(t, started, env) + KillActs(children, After(t).alive, env) + RmmodActs(loaded)
  }

  /** No child is killed by cleanup while the CDSP is up. */
  ghost predicate KillsOnlyWhenDown(t: seq<Act>) {
    forall i :: 0 <= i < |t| && t[i].Killed? ==> !After(t[..i]).up
  }

  ghost predicate StartsFrom(t: seq<Act>, earliest: real) {
    forall i :: 0 <= i < |t| && t[i].CdspStart? ==> t[i].time >= earliest
  }

  ghost predicate NoStarts(t: seq<Act>) {
    forall i :: 0 <= i < |t| ==> !t[i].CdspStart?
  }

  /** When the CDSP may be started again, given the stamp of the last stop. */
  function Earliest(stamp: Option<real>, now: real): real {
    if stamp.None? then now else stamp.value + RESTART_SETTLE_SECONDS
  }

  /** What is promised of a trace at every moment of a session. */
  ghost predicate Orderly(t: seq<Act>, started: bool, earliest: real) {
    KillsOnlyWhenDown(t) && StartsFrom(t, earliest) && (!started ==> NoStarts(t))
  }

  lemma StaysOrderly(t: seq<Act>, a: Act, started: bool, earliest: real)
    requires Orderly(t, started, earliest)
    requires a.Killed? ==> !After(t).up
    requires a.CdspStart? ==> started && a.time >= earliest
    ensures Orderly(t + [a], started, earliest)
  {
    var t' := t + [a];
    forall i | 0 <= i < |t'| && t'[i].Killed?
      ensures !After(t'[..i]).up
    {
      assert t'[..i] == if i < |t| then t[..i] else t;
    }
  }

  class Session {
    var loaded: seq<Name>
    var children: seq<nat>
    var started: bool
    var stamp: Option<real>            // the cdsp-stopped-monotonic file
    var trace: seq<Act>

    /** The session's own bookkeeping covers everything the trace has left behind. */
    ghost predicate Tracks(earliest: real)
      reads this
    {
      var left := After(trace);
      && left.stack == Some(loaded)
      && children == Children(trace)
      && (forall c :: c in left.alive ==> c in children)
      && (left.up ==> started)
      && Orderly(trace, started, earliest)
    }

    constructor (left: Option<real>)
      ensures stamp == left && loaded == [] && children == [] && trace == [] && !started
    {
      stamp := left;
      loaded, children, started, trace := [], [], false, [];
    }

    method Note(a: Act, ghost earliest: real)
      requires Orderly(trace, started, earliest)
      requires a.Killed? ==> !After(trace).up
      requires a.CdspStart? ==> started && a.time >= earliest
      modifies `trace
      ensures Orderly(trace, started, earliest) && trace == old(trace) + [a]
      ensures Children(trace) == Children(old(trace)) + if a.Spawned? then [a.child] else []
      ensures var before := After(old(trace));
        After(trace) == Left(UpAfter(before.up, a), AliveAfter(before.alive, a), StackAfter(before.stack, a))
    {
      StaysOrderly(trace, a, started, earliest);
      trace := trace + [a];
      assert trace[..|trace| - 1] == old(trace);
    }

    /** load(name): appended only after insmod has succeeded. */
    method Load(name: Name, present: bool, fails: bool, ghost earliest: real) returns (ok: bool)
      requires Tracks(earliest)
      modifies `trace, `loaded
      ensures Tracks(earliest)
      ensures ok == (!present && !fails)
      ensures trace == old(trace) + if ok then [Insmod(name)] else []
      ensures loaded == old(loaded) + if ok then [name] else []
    {
      hide After, Children, Orderly;
      if present || fails {
        return false;
      }
      Note(Insmod(name), earliest);
      loaded := loaded + [name];
      return true;
    }

    /** spawn(name, ...): opening the log or starting the process may fail. */
    method Spawn(child: nat, fails: bool, ghost earliest: real) returns (ok: bool)
      requires Tracks(earliest)
      modifies `trace, `children
      ensures Tracks(earliest)
      ensures ok == !fails && trace == old(trace) + (if ok then [Spawned(child)] else [])
      ensures children == old(children) + if ok then [child] else []
    {
      hide After, Children, Orderly;
      if fails {
        return false;
      }
      Note(Spawned(child), earliest);
      children := children + [child];
      return true;
    }

    /** Startup up to the point where the CDSP may be started; false is an exception or the
        early return of a stop request. */
    method LoadAndSpawn(env: Env, ghost earliest: real) returns (ok: bool)
      requires Tracks(earliest)
      modifies `trace, `loaded, `children
      ensures Tracks(earliest)
      ensures ok == StartupDone(env) && trace == old(trace) + StartupActs(env)
    {
      hide After, Children, Orderly;
      // the persistent modules, the single offline CDSP
      if env.fault(0) || env.fault(1) || env.fault(2) || env.fault(3) {
        return false;
      }
      ok := Load(INTENTS, env.fault(4), env.fault(5), earliest);
      if !ok { return; }
      ok := Load(FASTRPC, env.fault(6), env.fault(7), earliest);
      if !ok { return; }
      ok := Spawn(0, env.fault(8), earliest);
      if !ok { return; }
      ok := Spawn(1, env.fault(9), earliest);
      if !ok { return; }
      ok := Spawn(2, env.fault(10), earliest);
      if !ok { return; }
      ok := !env.stopEarly;
    }

    /** The start request; when writing it fails it may still have taken effect. */
    method StartCdsp(env: Env, time: real, ghost earliest: real) returns (ok: bool)
      requires Tracks(earliest) && time >= earliest
      modifies `trace, `started
      ensures Tracks(earliest) && started
      ensures ok == !env.fault(11) && trace == old(trace) + StartActs(env, time)
    {
      hide After, Children;
      started := true;
      ok := !env.fault(11);
      if ok || env.startTakesEffect {
        Note(CdspStart(time), earliest);
      }
    }

    /** From the started CDSP to the end of the main loop, however it ends. */
    method Serve(env: Env, ghost earliest: real)
      requires Tracks(earliest)
      modifies `trace, `children
      ensures Tracks(earliest)
      ensures trace == old(trace) + ServeActs(env)
    {
      hide After, Children, Orderly;
      if env.stopWaiting || env.fault(12) {
        return;
      }
      Note(Retired(0), earliest);
      if env.fault(13) {
        return;
      }
      var _ := Spawn(3, env.fault(14), earliest);
    }

    /** The finally block, its own calls succeeding. */
    method Unwind(env: Env, ghost earliest: real)
      requires Tracks(earliest)
      modifies `trace, `stamp
      ensures Orderly(trace, started, earliest) && After(trace) == Left(false, {}, Some([]))
      ensures trace == old(trace) + UnwindActs(old(trace), loaded, children, started, env)
      ensures stamp == if started then Some(env.end) else old(stamp)
    {
      hide After, Children, Orderly;
      if env.cdspDies {
        Note(CdspDied, earliest);
      } else if started && After(trace).up {
        Note(CdspStop, earliest);
      }
      KillChildren(env, earliest);
      RemoveModules(earliest);
      if started {
        stamp := Some(env.end);
      }
    }

    method KillChildren(env: Env, ghost earliest: real)
      requires Tracks(earliest) && !After(trace).up
      modifies `trace
      ensures Tracks(earliest) && !After(trace).up && After(trace).alive == {}
      ensures trace == old(trace) + KillActs(children, old(After(trace).alive), env)
    {
      hide After, Children, Orderly;
      var k := 0;
      while k < |children|
        invariant k <= |children|
        invariant Tracks(earliest) && !After(trace).up
        invariant forall c :: c in After(trace).alive ==> c in children[k..]
        invariant old(trace) + KillActs(children, old(After(trace).alive), env)
               == trace + KillActs(children[k..], After(trace).alive, env)
      {
        var child := children[k];
        assert children[k..][1..] == children[k + 1..];
        if child in After(trace).alive {
          Note(EndOf(child, env), earliest);
        }
        k := k + 1;
      }
    }

    method RemoveModules(ghost earliest: real)
      requires Tracks(earliest) && !After(trace).up && After(trace).alive == {}
      modifies `trace
      ensures Orderly(trace, started, earliest)
      ensures After(trace) == Left(false, {}, Some([]))
      ensures trace == old(trace) + RmmodActs(loaded)
    {
      hide After, Children, Orderly;
      var k := |loaded|;
      assert loaded[..k] == loaded;
      while k > 0
        invariant k <= |loaded|
        invariant Orderly(trace, started, earliest)
        invariant !After(trace).up && After(trace).alive == {} && After(trace).stack == Some(loaded[..k])
        invariant old(trace) + RmmodActs(loaded) == trace + RmmodActs(loaded[..k])
      {
        k := k - 1;
        Note(Rmmod(loaded[k]), earliest);
        assert loaded[..k + 1][..k] == loaded[..k];
      }
    }

    /** The try block. */
    method Try(env: Env, sleep: real, ghost earliest: real)
      requires Tracks(earliest) && trace == [] && sleep == Settle(stamp, env.now)
      requires env.now + sleep + env.startupTakes >= earliest
      modifies `trace, `loaded, `children, `started
      ensures Tracks(earliest) && trace == TryActs(env, stamp)
      ensures started == (old(started) || StartupDone(env))
    {
      hide After, Children, Orderly, StartupActs, StartupDone, StartActs, ServeActs;
      var ok := LoadAndSpawn(env, earliest);
      if ok {
        ok := StartCdsp(env, env.now + sleep + env.startupTakes, earliest);
        if ok {
          Serve(env, earliest);
        }
      }
    }

    /** main: wait out the settle time left by the last session, run, unwind. */
    method Run(env: Env)
      requires loaded == [] && children == [] && trace == [] && !started
      requires env.startupTakes >= 0.0
      requires stamp.Some? ==> env.now >= stamp.value      // the boot clock does not run backwards
      modifies this
      ensures started == StartupDone(env)
      ensures var t := TryActs(env, old(stamp)); trace == t + UnwindActs(t, loaded, children, started, env)
      ensures var t := TryActs(env, old(stamp)); Some(loaded) == After(t).stack && children == Children(t)
      ensures KillsOnlyWhenDown(trace) && After(trace) == Left(false, {}, Some([]))
      ensures old(stamp).Some? ==> StartsFrom(trace, old(stamp).value + RESTART_SETTLE_SECONDS)
      ensures !started ==> NoStarts(trace)
      ensures stamp == if started then Some(env.end) else old(stamp)
    {
      hide StartupDone, TryActs, UnwindActs;
      var elapsed := if stamp.Some? then env.now - stamp.value else RESTART_SETTLE_SECONDS;
      var sleep := if 0.0 <= elapsed < RESTART_SETTLE_SECONDS then RESTART_SETTLE_SECONDS - elapsed else 0.0;
      ghost var earliest := Earliest(stamp, env.now);
      Try(env, sleep, earliest);
      Unwind(env, earliest);
    }
  }

  // ------------------------------------------------------------------ step by step

  /** Everything startup and the main loop do when nothing fails: both transient modules in
      this order, three children, one start of the CDSP, then the self-test instead of the
      bootstrap traffic. */
  function FaultFree(time: real): seq<Act> {
    [Insmod("gts9u_cdsp_intents_probe"), Insmod("gts9u_fastrpc_prepared"),
     Spawned(0), Spawned(1), Spawned(2), CdspStart(time), Retired(0), Spawned(3)]
  }

  /** How many of these acts are done when call n is the first to fail. */
  const DONE_BEFORE: seq<nat> := [0, 0, 0, 0, 0, 0, 1, 1, 2, 3, 4, 5, 6, 7, 7]

  predicate NoFaultBefore(env: Env, n: nat) {
    forall m: nat :: m < n ==> !env.fault(m)
  }

  function StartTime(env: Env, stamp: Option<real>): real {
    env.now + Settle(stamp, env.now) + env.startupTakes
  }

  /** Without faults and stop requests all of it is done. */
  lemma NothingFails(env: Env, stamp: Option<real>)
    requires NoFaultBefore(env, 15) && !env.stopEarly && !env.stopWaiting
    ensures TryActs(env, stamp) == FaultFree(StartTime(env, stamp))
  {
  }

  /** A fault cuts it off right where it happens; a failed start request may still have
      taken effect. */
  lemma FirstFaultCuts(env: Env, stamp: Option<real>, n: nat)
    requires n < 15 && NoFaultBefore(env, n) && env.fault(n)
    requires (n > 10 ==> !env.stopEarly) && (n > 11 ==> !env.stopWaiting)
    ensures var done := DONE_BEFORE[n] + if n == 11 && env.startTakesEffect then 1 else 0;
      TryActs(env, stamp) == FaultFree(StartTime(env, stamp))[..done]
  {
    var full := FaultFree(StartTime(env, stamp));
    assert full[..0] == [] && full[..1] == [full[0]] && full[..2] == [full[0], full[1]];
  }

  /** A stop request ends startup before the CDSP is started, or the wait after it. */
  lemma StopCuts(env: Env, stamp: Option<real>)
    requires NoFaultBefore(env, 12)
    ensures env.stopEarly ==> TryActs(env, stamp) == FaultFree(StartTime(env, stamp))[..5]
    ensures !env.stopEarly && env.stopWaiting ==> TryActs(env, stamp) == FaultFree(StartTime(env, stamp))[..6]
  {
  }

  /** The wait is exactly what is missing from the settle time. */
  lemma SettleExact(stamp: Option<real>, now: real)
    ensures stamp.None? ==> Settle(stamp, now) == 0.0
    ensures stamp.Some? && stamp.value <= now < stamp.value + 60.0 ==> now + Settle(stamp, now) == stamp.value + 60.0
    ensures stamp.Some? && now >= stamp.value + 60.0 ==> Settle(stamp, now) == 0.0
  {
  }

  lemma AfterCons(t: seq<Act>, a: Act)
    ensures var before := After(t);
      After(t + [a]) == Left(UpAfter(before.up, a), AliveAfter(before.alive, a), StackAfter(before.stack, a))
    ensures Children(t + [a]) == Children(t) + if a.Spawned? then [a.child] else []
  {
    assert (t + [a])[..|t|] == t;
  }

  lemma FaultFreeLeaves(time: real)
    ensures After(FaultFree(time)) == Left(true, {1, 2, 3}, Some([INTENTS, FASTRPC]))
    ensures Children(FaultFree(time)) == [0, 1, 2, 3]
  {
    hide After, Children;
    var t0: seq<Act> := [];
    EmptyLeaves();
    var t1 := t0 + [Insmod(INTENTS)];
    AfterCons(t0, Insmod(INTENTS));
    var t2 := t1 + [Insmod(FASTRPC)];
    AfterCons(t1, Insmod(FASTRPC));
    var t3 := t2 + [Spawned(0)];
    AfterCons(t2, Spawned(0));
    var t4 := t3 + [Spawned(1)];
    AfterCons(t3, Spawned(1));
    var t5 := t4 + [Spawned(2)];
    AfterCons(t4, Spawned(2));
    var t6 := t5 + [CdspStart(time)];
    AfterCons(t5, CdspStart(time));
    var t7 := t6 + [Retired(0)];
    AfterCons(t6, Retired(0));
    AfterCons(t7, Spawned(3));
    assert FaultFree(time) == t7 + [Spawned(3)];
    assert After(FaultFree(time)).alive == {1, 2, 3};
    assert After(FaultFree(time)).stack.value == [INTENTS, FASTRPC];
  }

  lemma EmptyLeaves()
    ensures After([]) == Left(false, {}, Some([])) && Children([]) == []
  {
  }

  /** The whole fault-free session, as Run leaves it in its trace: stop, children, modules in
      reverse order. */
  lemma FaultFreeUnwinds(env: Env, time: real)
    requires !env.cdspDies
    ensures UnwindActs(FaultFree(time), [INTENTS, FASTRPC], [0, 1, 2, 3], true, env)
         == [CdspStop, EndOf(1, env), EndOf(2, env), EndOf(3, env),
             Rmmod("gts9u_fastrpc_prepared"), Rmmod("gts9u_cdsp_intents_probe")]
  {
    FaultFreeLeaves(time);
    KillsFour(env);
    assert [INTENTS, FASTRPC][..1] == [INTENTS] && [INTENTS][..0] == [];
    hide After, KillActs;
    assert RmmodActs([INTENTS]) == [Rmmod(INTENTS)] + RmmodActs([INTENTS][..0]);
    assert RmmodActs([INTENTS, FASTRPC]) == [Rmmod(FASTRPC)] + RmmodActs([INTENTS]);
  }

  lemma KillsFour(env: Env)
    ensures KillActs([0, 1, 2, 3], {1, 2, 3}, env) == [EndOf(1, env), EndOf(2, env), EndOf(3, env)]
  {
    assert [0, 1, 2, 3][1..] == [1, 2, 3] && [1, 2, 3][1..] == [2, 3] && [2, 3][1..] == [3] && [3][1..] == [];
    assert {1, 2, 3} - {1} == {2, 3} && {2, 3} - {2} == {3} && {3} - {3} == {};
    assert KillActs([3], {3}, env) == [EndOf(3, env)] + KillActs([], {}, env);
    assert KillActs([2, 3], {2, 3}, env) == [EndOf(2, env)] + KillActs([3], {3}, env);
    assert KillActs([1, 2, 3], {1, 2, 3}, env) == [EndOf(1, env)] + KillActs([2, 3], {2, 3}, env);
  }
}
