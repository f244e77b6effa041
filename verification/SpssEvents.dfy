/**
 The secure processor's events of kernel/drivers/spss_utils.c.  Every change happens under
 event_lock as a pair: first the completion, then the flag.  Waiters take no lock.
 */
module SpssEvents {

  const POWER_DOWN: nat := 6
  const POWER_UP: nat := 7
  const EVENTS: nat := 8
  const EINVAL: int := -22

  type Event = e: nat | e < EVENTS
  type Flags = f: seq<bool> | |f| == EVENTS witness seq(EVENTS, _ => false)

  /** complete_all and set, or reinit and clear. */
  datatype Op = Op(event: Event, raises: bool)

  const STARTED: seq<Op> := [Op(POWER_UP, true), Op(POWER_DOWN, false)]
  const UNPREPARED: seq<Op> := [Op(POWER_DOWN, true), Op(POWER_UP, false)]

  function Lowered(from: nat): seq<Op>
    requires from <= EVENTS
    decreases EVENTS - from
  {
    if from == EVENTS then [] else [Op(from, false)] + Lowered(from + 1)
  }

  function Applied(f: Flags, ops: seq<Op>): Flags
    decreases |ops|
  {
    if ops == [] then f else Applied(f[ops[0].event := ops[0].raises], ops[1..])
  }

  // ------------------------------------------------------------------ interleavings

  type Thread = nat

  /** `todo` is what the lock holder has left to do and `half` the change whose completion
      is already done; the lock is free when both are empty.  `waiters` maps the threads
      inside the wait ioctl to their event. */
  datatype State = State(done: Flags, signaled: Flags, todo: seq<Op>, half: seq<Op>, waiters: map<Thread, Event>)
  {
    predicate Unlocked() { todo == [] && half == [] }
  }

  datatype Step =
    | SubdevStart | SubdevStop | SubdevUnprepare
    | UserSignal(id: nat)
    | ChangeCompletion
    | ChangeFlag
    | StartWait(t: Thread, event: Event)
    | Released(t: Thread)     // sees its event's completion done
    | GaveUp(t: Thread)       // time-out or signal

  predicate Accepted(s: State, id: nat) {
    id < EVENTS && !s.signaled[id]
  }

  predicate Enabled(s: State, step: Step) {
    match step
    case SubdevStart => s.Unlocked()
    case SubdevStop => s.Unlocked()
    case SubdevUnprepare => s.Unlocked()
    case UserSignal(_) => s.Unlocked()
    case ChangeCompletion => s.half == [] && s.todo != []
    case ChangeFlag => s.half != []
    case StartWait(t, _) => t !in s.waiters
    case Released(t) => t in s.waiters && s.done[s.waiters[t]]
    case GaveUp(t) => t in s.waiters
  }

  function Next(s: State, step: Step): State
    requires Enabled(s, step)
  {
    match step
    case SubdevStart => s.(todo := STARTED)
    case SubdevStop => s.(todo := Lowered(0))
    case SubdevUnprepare => s.(todo := UNPREPARED)
    case UserSignal(id) => if Accepted(s, id) then s.(todo := [Op(id, true)]) else s
    case ChangeCompletion =>
      var op := s.todo[0];
      s.(done := s.done[op.event := op.raises], todo := s.todo[1..], half := [op])
    case ChangeFlag => s.(signaled := s.signaled[s.half[0].event := s.half[0].raises], half := [])
    case StartWait(t, event) => s.(waiters := s.waiters[t := event])
    case Released(t) => s.(waiters := s.waiters - {t})
    case GaveUp(t) => s.(waiters := s.waiters - {t})
  }

  predicate Init(s: State) {
    s == State(seq(EVENTS, _ => false), seq(EVENTS, _ => false), [], [], map[])
  }

  /** Completion and flag differ at most in the change that is half made. */
  predicate Agree(s: State) {
    && |s.half| <= 1
    && s.done == if s.half == [] then s.signaled else s.signaled[s.half[0].event := s.half[0].raises]
  }

  ghost predicate IsRun(run: seq<State>, steps: seq<Step>) {
    && |run| == |steps| + 1
    && Init(run[0])
    && forall i :: 0 <= i < |steps| ==> Enabled(run[i], steps[i]) && run[i + 1] == Next(run[i], steps[i])
  }

  /** Whenever the lock is free every flag agrees with its completion, so the answer of
      is-signaled and the behaviour of a wait match. */
  lemma {:induction false} FlagsAgreeWhenUnlocked(run: seq<State>, steps: seq<Step>, i: nat)
    requires IsRun(run, steps) && i < |run|
    ensures Agree(run[i])
    ensures run[i].Unlocked() ==> run[i].signaled == run[i].done
  {
    if i > 0 {
      FlagsAgreeWhenUnlocked(run, steps, i - 1);
    }
  }

  // ------------------------------------------------------------------ power events

  predicate SignalsPower(step: Step) {
    step.UserSignal? && (step.id == POWER_UP || step.id == POWER_DOWN)
  }

  predicate OneAtMost(f: Flags) {
    !(f[POWER_UP] && f[POWER_DOWN])
  }

  lemma {:induction false} LoweredClears(f: Flags, from: nat)
    requires from <= EVENTS
    ensures forall e: Event :: Applied(f, Lowered(from))[e] == (e < from && f[e])
    decreases EVENTS - from
  {
    if from < EVENTS {
      assert Lowered(from)[1..] == Lowered(from + 1);
      LoweredClears(f[from := false], from + 1);
    }
  }

  lemma TwoApplied(f: Flags, a: Op, b: Op)
    ensures Applied(f, [a, b]) == f[a.event := a.raises][b.event := b.raises]
  {
    var g := f[a.event := a.raises];
    assert [a, b][1..] == [b];
    assert Applied(g, [b]) == g[b.event := b.raises];
  }

  lemma PairsKeepOne(f: Flags)
    ensures Applied(f, STARTED) == f[POWER_UP := true][POWER_DOWN := false]
    ensures Applied(f, UNPREPARED) == f[POWER_DOWN := true][POWER_UP := false]
  {
    TwoApplied(f, Op(POWER_UP, true), Op(POWER_DOWN, false));
    TwoApplied(f, Op(POWER_DOWN, true), Op(POWER_UP, false));
  }

  lemma EndsWithOneAtMost(s: State, step: Step)
    requires Enabled(s, step) && Agree(s) && !SignalsPower(step)
    requires OneAtMost(Applied(s.done, s.todo))
    ensures OneAtMost(Applied(Next(s, step).done, Next(s, step).todo))
  {
    match step
    case SubdevStart => PairsKeepOne(s.done);
    case SubdevUnprepare => PairsKeepOne(s.done);
    case SubdevStop => LoweredClears(s.done, 0);
    case UserSignal(id) =>
      if Accepted(s, id) {
        assert Applied(s.done, [Op(id, true)]) == s.done[id := true];
      }
    case _ =>
  }

  /** As long as no user signals a power event, POWER_UP and POWER_DOWN are never both set
      while the lock is free, in whatever order the remoteproc core calls back. */
  lemma {:induction false} PowerEventsExclude(run: seq<State>, steps: seq<Step>, i: nat)
    requires IsRun(run, steps) && i < |run|
    requires forall k :: 0 <= k < i ==> !SignalsPower(steps[k])
    ensures OneAtMost(Applied(run[i].done, run[i].todo))
    ensures run[i].Unlocked() ==> OneAtMost(run[i].signaled)
  {
    FlagsAgreeWhenUnlocked(run, steps, i);
    if i > 0 {
      PowerEventsExclude(run, steps, i - 1);
      FlagsAgreeWhenUnlocked(run, steps, i - 1);
      EndsWithOneAtMost(run[i - 1], steps[i - 1]);
    }
  }

  /** A user's signal can set both: exactly when it is accepted for one of the two while the
      other is set. */
  lemma UserSignalSetsBothIff(s: State, id: nat)
    requires Agree(s) && s.Unlocked() && OneAtMost(s.signaled)
    ensures var s1 := Next(s, UserSignal(id));
      (Enabled(s1, ChangeCompletion)
        && Enabled(Next(s1, ChangeCompletion), ChangeFlag)
        && !OneAtMost(Next(Next(s1, ChangeCompletion), ChangeFlag).signaled))
      <==> (id == POWER_UP && s.signaled[POWER_DOWN]) || (id == POWER_DOWN && s.signaled[POWER_UP])
  {
    if Accepted(s, id) {
      assert Next(s, UserSignal(id)).todo == [Op(id, true)];
    }
  }

  lemma Extend(run: seq<State>, steps: seq<Step>, step: Step) returns (run': seq<State>, steps': seq<Step>)
    requires IsRun(run, steps) && Enabled(run[|steps|], step)
    ensures IsRun(run', steps') && run <= run' && steps' == steps + [step]
    ensures run'[|steps'|] == Next(run[|steps|], step)
  {
    run', steps' := run + [Next(run[|steps|], step)], steps + [step];
  }

  /** Both halves of one change. */
  lemma ExtendChange(run: seq<State>, steps: seq<Step>) returns (run': seq<State>, steps': seq<Step>)
    requires IsRun(run, steps) && run[|steps|].half == [] && run[|steps|].todo != []
    ensures IsRun(run', steps') && run <= run' && steps <= steps'
    ensures var s, op := run[|steps|], run[|steps|].todo[0];
      run'[|steps'|] == s.(done := s.done[op.event := op.raises], signaled := s.signaled[op.event := op.raises],
                           todo := s.todo[1..])
  {
    run', steps' := Extend(run, steps, ChangeCompletion);
    run', steps' := Extend(run', steps', ChangeFlag);
  }

  /** An accepted signal from the moment the lock is free until it is free again. */
  lemma ExtendSignal(run: seq<State>, steps: seq<Step>, id: Event) returns (run': seq<State>, steps': seq<Step>)
    requires IsRun(run, steps) && run[|steps|].Unlocked() && !run[|steps|].signaled[id]
    ensures IsRun(run', steps') && run <= run' && steps + [UserSignal(id)] <= steps'
    ensures var s := run[|steps|];
      run'[|steps'|] == s.(done := s.done[id := true], signaled := s.signaled[id := true])
  {
    run', steps' := Extend(run, steps, UserSignal(id));
    run', steps' := ExtendChange(run', steps');
  }

  const NOTHING: State := State(seq(EVENTS, _ => false), seq(EVENTS, _ => false), [], [], map[])

  lemma EmptyRun() returns (run: seq<State>, steps: seq<Step>)
    ensures IsRun(run, steps) && run == [NOTHING] && steps == []
  {
    run, steps := [NOTHING], [];
  }

  /** A run in which two user signals set both power events. */
  lemma UserSetsBoth() returns (run: seq<State>, steps: seq<Step>)
    ensures IsRun(run, steps) && run[|steps|].Unlocked() && !OneAtMost(run[|steps|].signaled)
  {
    run, steps := EmptyRun();
    run, steps := ExtendSignal(run, steps, POWER_UP);
    run, steps := ExtendSignal(run, steps, POWER_DOWN);
  }

  // ------------------------------------------------------------------ signals and waiters

  /** Step k changes the completion of event e that way. */
  ghost predicate Changes(run: seq<State>, steps: seq<Step>, k: nat, e: Event, raises: bool)
    requires IsRun(run, steps) && k < |steps|
  {
    steps[k] == ChangeCompletion && run[k].todo[0] == Op(e, raises)
  }

  /** A signal is accepted exactly for an event that nothing has raised since it was last
      reset; no other signal changes anything. */
  lemma SignalOnlyUnsignaled(run: seq<State>, steps: seq<Step>, i: nat, id: nat)
    requires IsRun(run, steps) && i < |steps| && steps[i] == UserSignal(id)
    ensures id < EVENTS && !run[i].done[id] <==> run[i + 1].todo != []
    ensures run[i + 1].todo == [] ==> run[i + 1] == run[i]
  {
    FlagsAgreeWhenUnlocked(run, steps, i);
  }

  ghost predicate RaisedAndKept(run: seq<State>, steps: seq<Step>, k: nat, j: nat, e: Event)
    requires IsRun(run, steps) && k < j < |run|
  {
    Changes(run, steps, k, e, true) && forall m :: k < m < j ==> !Changes(run, steps, m, e, false)
  }

  /** A waiter of an event can go on exactly while the event has been raised and not reset
      again: a signal lets every waiter through that runs before the next reset, and none
      that runs after it. */
  lemma {:induction false} WaiterGoesOnIff(run: seq<State>, steps: seq<Step>, j: nat, t: Thread, e: Event)
    requires IsRun(run, steps) && j < |run| && t in run[j].waiters && run[j].waiters[t] == e
    ensures Enabled(run[j], Released(t)) <==> exists k: nat :: k < j && RaisedAndKept(run, steps, k, j, e)
  {
    DoneIffRaisedAndKept(run, steps, j, e);
  }

  lemma {:induction false} DoneIffRaisedAndKept(run: seq<State>, steps: seq<Step>, j: nat, e: Event)
    requires IsRun(run, steps) && j < |run|
    ensures run[j].done[e] <==> exists k: nat :: k < j && RaisedAndKept(run, steps, k, j, e)
  {
    if j > 0 {
      DoneIffRaisedAndKept(run, steps, j - 1, e);
      if run[j].done[e] {
        if Changes(run, steps, j - 1, e, true) {
          assert RaisedAndKept(run, steps, j - 1, j, e);
        } else {
          var k: nat :| k < j - 1 && RaisedAndKept(run, steps, k, j - 1, e);
          assert RaisedAndKept(run, steps, k, j, e);
        }
      } else if k: nat :| k < j && RaisedAndKept(run, steps, k, j, e) {
        assert k < j - 1;
        assert !Changes(run, steps, j - 1, e, false);
        assert RaisedAndKept(run, steps, k, j - 1, e);
      }
    }
  }

  /** A stop lowers one event after another until all are. */
  lemma {:induction false} ExtendStop(run: seq<State>, steps: seq<Step>, from: nat)
    returns (run': seq<State>, steps': seq<Step>)
    requires from <= EVENTS && IsRun(run, steps) && run[|steps|].half == []
    requires run[|steps|].todo == Lowered(from)
    requires forall e: Event :: e < from ==> !run[|steps|].done[e]
    ensures IsRun(run', steps') && run <= run' && steps <= steps'
    ensures run'[|steps'|].Unlocked() && run'[|steps'|].waiters == run[|steps|].waiters
    ensures forall e: Event :: !run'[|steps'|].done[e]
    decreases EVENTS - from
  {
    run', steps' := run, steps;
    if from < EVENTS {
      assert Lowered(from)[1..] == Lowered(from + 1);
      run', steps' := ExtendChange(run, steps);
      run', steps' := ExtendStop(run', steps', from + 1);
    }
  }

  /** A run in which a signal is accepted while a thread waits for it, and a stop follows
      before the thread has run: it sleeps on. */
  lemma SignaledWaiterSleepsOn(t: Thread, e: Event) returns (run: seq<State>, steps: seq<Step>)
    ensures IsRun(run, steps) && |steps| > 2
    ensures steps[0] == StartWait(t, e)
    ensures steps[1] == UserSignal(e) && Accepted(run[1], e)
    ensures t in run[|steps|].waiters && run[|steps|].Unlocked() && !Enabled(run[|steps|], Released(t))
  {
    run, steps := EmptyRun();
    run, steps := Extend(run, steps, StartWait(t, e));
    run, steps := ExtendSignal(run, steps, e);
    ghost var before := steps;
    run, steps := Extend(run, steps, SubdevStop);
    run, steps := ExtendStop(run, steps, 0);
    assert before <= steps && before[0] == StartWait(t, e) && before[1] == UserSignal(e);
  }

  // ------------------------------------------------------------------ whole critical sections

  predicate IsEntry(step: Step) {
    step.SubdevStart? || step.SubdevStop? || step.SubdevUnprepare? || step.UserSignal?
  }

  /** The events set after a critical section, given those before: a start sets 7 and resets
      6, an unprepare the other way round, a stop resets all, a signal sets its own. */
  function SetAfter(before: Flags, step: Step): Flags
    requires IsEntry(step)
  {
    match step
    case SubdevStart => before[7 := true][6 := false]
    case SubdevUnprepare => before[6 := true][7 := false]
    case SubdevStop => seq(EVENTS, _ => false)
    case UserSignal(id) => if id < 8 then before[id := true] else before
  }

  lemma EntryPlans(s: State, step: Step)
    requires Enabled(s, step) && IsEntry(step) && Agree(s)
    ensures var s' := Next(s, step); Applied(s'.done, s'.todo) == SetAfter(s.done, step)
  {
    match step
    case SubdevStart => PairsKeepOne(s.done);
    case SubdevUnprepare => PairsKeepOne(s.done);
    case SubdevStop => LoweredClears(s.done, 0);
    case UserSignal(id) =>
      if Accepted(s, id) {
        assert Applied(s.done, [Op(id, true)]) == s.done[id := true];
      } else if id < 8 {
        assert s.done[id] && s.done[id := true] == s.done;
      }
  }

  /** What a section will leave does not change while it is under way. */
  lemma {:induction false} PlanKept(run: seq<State>, steps: seq<Step>, b: nat, i: nat)
    requires IsRun(run, steps) && b < i <= |steps| && IsEntry(steps[b])
    requires forall k :: b < k < i ==> !IsEntry(steps[k])
    ensures Applied(run[i].done, run[i].todo) == SetAfter(run[b].done, steps[b])
  {
    var s, step := run[i - 1], steps[i - 1];
    assert Enabled(s, step) && run[i] == Next(s, step);
    if i == b + 1 {
      FlagsAgreeWhenUnlocked(run, steps, b);
      EntryPlans(s, step);
    } else {
      PlanKept(run, steps, b, i - 1);
    }
  }

  /** When a critical section has ended, flags and completions are what it is for, whatever
      the waiters did in between. */
  lemma SectionLeaves(run: seq<State>, steps: seq<Step>, b: nat, i: nat)
    requires IsRun(run, steps) && b < i <= |steps| && IsEntry(steps[b])
    requires forall k :: b < k < i ==> !IsEntry(steps[k])
    requires run[i].Unlocked()
    ensures run[i].done == run[i].signaled == SetAfter(run[b].done, steps[b])
  {
    PlanKept(run, steps, b, i);
    FlagsAgreeWhenUnlocked(run, steps, i);
  }
}
