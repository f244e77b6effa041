/**
 The interrupt notification device of kernel/drivers/qcom_spss_irq.c: the handler's two
 steps, any number of threads inside poll(2), and open and release, interleaved.
 */
module SpssIrq {

  type Thread = nat
  type File = nat

  /** A thread inside poll(2).  `woken` is the flag a wake-up sets on its queue entry and
      `last` says that its time is up, so that this is the final look. */
  datatype Poller =
    | Registered(woken: bool, last: bool)   // on the wait queue, about to exchange the flag
    | Waiting(woken: bool)                  // saw nothing; sleeps until woken
    | Returned(ready: bool)

  /** `raised` counts interrupts handled so far; `reports` holds, for each successful poll,
      how many of them had been raised when it took the flag. */
  datatype State = State(pending: bool, taken: bool, handling: bool,
                         pollers: map<Thread, Poller>, holders: set<File>,
                         raised: nat, reports: seq<nat>)

  datatype Step =
    | StorePending
    | WakeUp
    | Register(t: Thread)
    | Exchange(t: Thread)
    | Resume(t: Thread)
    | Expire(t: Thread)
    | Interrupted(t: Thread)
    | Leave(t: Thread)
    | OpenFile(f: File)
    | ReleaseFile(f: File)

  predicate Enabled(s: State, step: Step) {
    match step
    case StorePending => !s.handling
    case WakeUp => s.handling
    case Register(t) => s.holders != {} && t !in s.pollers
    case Exchange(t) => t in s.pollers && s.pollers[t].Registered?
    case Resume(t) => t in s.pollers && s.pollers[t] == Waiting(true)
    case Expire(t) => t in s.pollers && s.pollers[t].Waiting?
    case Interrupted(t) => t in s.pollers && s.pollers[t].Waiting?
    case Leave(t) => t in s.pollers && s.pollers[t].Returned?
    case OpenFile(f) => f !in s.holders
    case ReleaseFile(f) => f in s.holders && s.pollers == map[]
  }

  function Woken(p: Poller): Poller {
    if p.Returned? then p else p.(woken := true)
  }

  function Next(s: State, step: Step): State
    requires Enabled(s, step)
  {
    match step
    case StorePending => s.(pending := true, handling := true, raised := s.raised + 1)
    case WakeUp => s.(handling := false, pollers := map t | t in s.pollers :: Woken(s.pollers[t]))
    case Register(t) => s.(pollers := s.pollers[t := Registered(false, false)])
    case Exchange(t) =>
      var p := s.pollers[t];
      if s.pending then
        s.(pending := false, pollers := s.pollers[t := Returned(true)], reports := s.reports + [s.raised])
      else
        s.(pollers := s.pollers[t := if p.last then Returned(false) else Waiting(p.woken)])
    case Resume(t) => s.(pollers := s.pollers[t := Registered(false, false)])
    case Expire(t) => s.(pollers := s.pollers[t := Registered(false, true)])
    case Interrupted(t) => s.(pollers := s.pollers - {t})
    case Leave(t) => s.(pollers := s.pollers - {t})
    case OpenFile(f) => if s.taken then s else s.(taken := true, holders := s.holders + {f})
    case ReleaseFile(f) => s.(taken := false, holders := s.holders - {f})
  }

  predicate Init(s: State) {
    s == State(false, false, false, map[], {}, 0, [])
  }

  /** How many interrupts the successful polls so far account for. */
  function Acknowledged(s: State): nat {
    if s.reports == [] then 0 else s.reports[|s.reports| - 1]
  }

  predicate Increasing(reports: seq<nat>) {
    && (forall i :: 0 <= i < |reports| ==> 0 < reports[i])
    && (forall i, j :: 0 <= i < j < |reports| ==> reports[i] < reports[j])
  }

  ghost predicate Inv(s: State) {
    && Acknowledged(s) <= s.raised
    && (s.pending <==> Acknowledged(s) < s.raised)
    && Increasing(s.reports)
    && (s.pending && !s.handling ==> forall t :: t in s.pollers && s.pollers[t].Waiting? ==> s.pollers[t].woken)
    && (s.taken <==> s.holders != {})
    && (forall f, g :: f in s.holders && g in s.holders ==> f == g)
    && (s.pollers != map[] ==> s.taken)
  }

  lemma StepKeepsInv(s: State, step: Step)
    requires Inv(s) && Enabled(s, step)
    ensures Inv(Next(s, step))
  {
    var s' := Next(s, step);
    match step
    case Exchange(t) =>
      if s.pending {
        forall i | 0 <= i < |s.reports| ensures s.reports[i] < s.raised {
          assert s.reports[i] <= Acknowledged(s);
        }
      }
    case Register(t) => assert t in s'.pollers;
    case Interrupted(t) => assert t in s.pollers;
    case Leave(t) => assert t in s.pollers;
    case _ =>
  }

  ghost predicate IsRun(run: seq<State>, steps: seq<Step>) {
    && |run| == |steps| + 1
    && Init(run[0])
    && forall i :: 0 <= i < |steps| ==> Enabled(run[i], steps[i]) && run[i + 1] == Next(run[i], steps[i])
  }

  lemma {:induction false} RunKeepsInv(run: seq<State>, steps: seq<Step>, i: nat)
    requires IsRun(run, steps) && i < |run|
    ensures Inv(run[i])
  {
    if i > 0 {
      RunKeepsInv(run, steps, i - 1);
      StepKeepsInv(run[i - 1], steps[i - 1]);
    }
  }

  /** The node never has two openers. */
  lemma SingleOpener(run: seq<State>, steps: seq<Step>, i: nat)
    requires IsRun(run, steps) && i < |run|
    ensures |run[i].holders| <= 1
  {
    RunKeepsInv(run, steps, i);
    var h := run[i].holders;
    if f :| f in h {
      assert h == {f};
    }
  }

  /** Every successful poll reports at least one new interrupt, and what has not been
      reported yet is pending. */
  lemma ReportsAccountForInterrupts(run: seq<State>, steps: seq<Step>, i: nat)
    requires IsRun(run, steps) && i < |run|
    ensures Increasing(run[i].reports)
    ensures forall k :: 0 <= k < |run[i].reports| ==> run[i].reports[k] <= run[i].raised
    ensures run[i].pending <==> Acknowledged(run[i]) < run[i].raised
  {
    RunKeepsInv(run, steps, i);
    var r := run[i].reports;
    assert forall k :: 0 <= k < |r| ==> r[k] <= Acknowledged(run[i]);
  }

  /** No interrupt is lost between handler, registration and poll: once the handler is
      done, an unreported interrupt leaves no poller asleep, and whichever poller runs next
      takes it in at most two steps of its own. */
  lemma NoInterruptLost(run: seq<State>, steps: seq<Step>, i: nat, t: Thread)
    requires IsRun(run, steps) && i < |run|
    requires var s := run[i]; !s.handling && Acknowledged(s) < s.raised && t in s.pollers && !s.pollers[t].Returned?
    ensures var s := run[i];
      if s.pollers[t].Registered? then
        && Enabled(s, Exchange(t))
        && Next(s, Exchange(t)).pollers[t] == Returned(true)
        && Acknowledged(Next(s, Exchange(t))) == s.raised
      else
        && Enabled(s, Resume(t))
        && Enabled(Next(s, Resume(t)), Exchange(t))
        && Next(Next(s, Resume(t)), Exchange(t)).pollers[t] == Returned(true)
        && Acknowledged(Next(Next(s, Resume(t)), Exchange(t))) == s.raised
  {
    RunKeepsInv(run, steps, i);
  }

  /** A free node can be opened, a taken one cannot, and a release makes it free again. */
  lemma OpenSucceedsIff(run: seq<State>, steps: seq<Step>, i: nat, f: File)
    requires IsRun(run, steps) && i < |run| && Enabled(run[i], OpenFile(f))
    ensures var s, s' := run[i], Next(run[i], OpenFile(f));
      if s.holders == {} then s'.holders == {f} else s' == s
  {
    RunKeepsInv(run, steps, i);
  }

  lemma ReleaseFrees(run: seq<State>, steps: seq<Step>, i: nat, f: File)
    requires IsRun(run, steps) && i < |run| && Enabled(run[i], ReleaseFile(f))
    ensures var s' := Next(run[i], ReleaseFile(f));
      s'.holders == {} && Enabled(s', OpenFile(f)) && Next(s', OpenFile(f)).holders == {f}
  {
    RunKeepsInv(run, steps, i);
    assert forall g :: g in run[i].holders ==> g == f;
  }

  /** A poll reports nothing only at its last look, and only if every interrupt raised by
      then has been reported; it reports something only if there was a new one. */
  lemma EmptyHandedMeansNothing(run: seq<State>, steps: seq<Step>, i: nat, t: Thread, ready: bool)
    requires IsRun(run, steps) && i < |steps| && t in run[i + 1].pollers && run[i + 1].pollers[t] == Returned(ready)
    requires !(t in run[i].pollers && run[i].pollers[t].Returned?)
    ensures steps[i] == Exchange(t)
    ensures ready <==> Acknowledged(run[i]) < run[i].raised
    ensures ready ==> Acknowledged(run[i + 1]) == run[i].raised == run[i + 1].raised
  {
    RunKeepsInv(run, steps, i);
    assert Enabled(run[i], steps[i]) && run[i + 1] == Next(run[i], steps[i]);
  }

  /** A time-out leads to one more look, not to an answer. */
  lemma ExpiredLooksAgain(s: State, t: Thread)
    requires Enabled(s, Expire(t))
    ensures Enabled(Next(s, Expire(t)), Exchange(t))
    ensures Next(s, Expire(t)).raised == s.raised && Next(s, Expire(t)).pending == s.pending
  {
  }
}
