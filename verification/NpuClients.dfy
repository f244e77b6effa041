/**
 The slot protocol of the NPU clients: `acquire_npu_session` of scripts/gts9u-ai.py
 (restarts the service at the limit) and of scripts/gts9u-npu-app.py (refuses at the
 limit), with the installer of scripts/install-npu-apps.sh, which takes the users
 lock without the counter lock.  Any number of processes interleave at every lock,
 file and systemctl call, and any of them may fail at any of those calls.
 */
module NpuClients {
  import opened Bytes

  const CLIENT_LIMIT: nat := 40
  const PROCESS_LIMIT: nat := 48      // what one CDSP session supports

  datatype Kind = Ai | App | Installer
  datatype Flock = Free | Shared | Exclusive

  datatype Pc =
    | Idle
    | WantCounter        // blocked in flock(counter, LOCK_EX)
    // from here to Written the process holds the counter lock
    | HasCounter
    | HasCount
    | Refused            // about to raise: limit reached
    | WantExclusive      // blocked in flock(users, LOCK_EX)
    | NeedStop
    | Stopping           // waiting for systemctl stop
    | NeedStart
    | Starting           // waiting for systemctl start, users exclusive
    | Converting         // about to convert exclusive to shared
    | WantShared         // blocked in flock(users, LOCK_SH)
    | NeedRestart
    | Restarting         // waiting for systemctl start, users shared
    | AwaitPower         // the power-ready loop, in the app only
    | ReadyToWrite
    | Emptied            // counter file truncated, new value not yet written
    | Written
    // past the counter lock
    | Attached
    | Lingering          // a BaseException left the users file open
    | Installing

  /** `renewed` is set once this acquisition has started the service itself. */
  datatype Proc = Proc(kind: Kind, pc: Pc, users: Flock, count: nat, active: bool, renewed: bool)

  datatype Service = Down | Activating | Up | Deactivating
  datatype Job = NoJob | StartJob | StopJob

  /** `attached` counts the clients attached since the service last came up; `torn` records
      whether, since then, a writer has died between truncate and flush while there were any. */
  datatype World = World(procs: seq<Proc>, owner: Option<nat>, stored: nat,
                         svc: Service, job: Job, attached: nat, torn: bool)

  datatype Act =
    | OpenCounter | LockCounter | ReadCount | CheckActive
    | LockExclusive | RequestStop | StopDone | RequestStart | StartDone
    | DropExclusive | LockShared | RequestRestart | RestartDone | PowerReady
    | Truncate | Flush | Unlock | Finish
    | Fail | Interrupt | LetGo
    | InstallTry | InstallDone

  datatype Event =
    | Client(p: nat, act: Act)
    | Dispatch          // systemd advances the service by one state
    | StartFails
    | Crash
    | AdminStart

  predicate Critical(pc: Pc) {
    !pc.Idle? && !pc.WantCounter? && !pc.Attached? && !pc.Lingering? && !pc.Installing?
  }

  predicate NoneElse(w: World, p: nat, lock: Flock) {
    forall q :: 0 <= q < |w.procs| && q != p ==> w.procs[q].users != lock
  }

  predicate CanAct(w: World, p: nat, act: Act)
    requires p < |w.procs|
  {
    var x := w.procs[p];
    match act
    case OpenCounter => x.pc.Idle? && !x.kind.Installer?
    case LockCounter => x.pc.WantCounter? && w.owner.None?
    case ReadCount => x.pc.HasCounter?
    case CheckActive => x.pc.HasCount?
    case LockExclusive => x.pc.WantExclusive? && NoneElse(w, p, Shared) && NoneElse(w, p, Exclusive)
    case RequestStop => x.pc.NeedStop?
    case StopDone => x.pc.Stopping? && w.job.NoJob? && w.svc.Down?
    case RequestStart => x.pc.NeedStart?
    case StartDone => x.pc.Starting? && w.job.NoJob? && w.svc.Up?
    case DropExclusive => x.pc.Converting?
    case LockShared => x.pc.WantShared? && NoneElse(w, p, Exclusive)
    case RequestRestart => x.pc.NeedRestart?
    case RestartDone => x.pc.Restarting? && w.job.NoJob? && w.svc.Up?
    case PowerReady => x.pc.AwaitPower?
    case Truncate => x.pc.ReadyToWrite?
    case Flush => x.pc.Emptied?
    case Unlock => x.pc.Written?
    case Finish => x.pc.Attached?
    case Fail => Critical(x.pc) || x.pc.WantCounter?
    case Interrupt => Critical(x.pc)
    case LetGo => x.pc.Lingering?
    case InstallTry => x.pc.Idle? && x.kind.Installer? && NoneElse(w, p, Shared) && NoneElse(w, p, Exclusive)
    case InstallDone => x.pc.Installing?
  }

  /** Where is-active and the count send each of the two scripts. */
  function Branch(kind: Kind, active: bool, count: nat): Pc {
    if kind.App? && active && count >= CLIENT_LIMIT then Refused
    else if !active || count >= CLIENT_LIMIT then WantExclusive
    else WantShared
  }

  function AfterAct(w: World, x: Proc, act: Act): Proc {
    match act
    case OpenCounter => x.(pc := WantCounter, renewed := false)
    case LockCounter => x.(pc := HasCounter)
    case ReadCount => x.(pc := HasCount, count := w.stored)
    case CheckActive => x.(pc := Branch(x.kind, w.svc.Up?, x.count), active := w.svc.Up?)
    case LockExclusive => x.(users := Exclusive, pc := if x.active then NeedStop else NeedStart)
    case RequestStop => x.(pc := Stopping)
    case StopDone => x.(pc := NeedStart)
    case RequestStart => x.(pc := Starting)
    case StartDone => x.(pc := Converting, count := 0, renewed := true)
    case DropExclusive => x.(pc := WantShared, users := Free)
    case LockShared =>
      x.(users := Shared,
         pc := if !x.renewed then NeedRestart else if x.kind.App? then AwaitPower else ReadyToWrite)
    case RequestRestart => x.(pc := Restarting)
    case RestartDone => x.(pc := if x.kind.App? then AwaitPower else ReadyToWrite)
    case PowerReady => x.(pc := ReadyToWrite)
    case Truncate => x.(pc := Emptied)
    case Flush => x.(pc := Written)
    case Unlock => x.(pc := Attached)
    case Interrupt => x.(pc := Lingering)
    case InstallTry => x.(pc := Installing, users := Exclusive)
    case Finish | Fail | LetGo | InstallDone => x.(pc := Idle, users := Free)
  }

  function Acted(w: World, p: nat, act: Act): World
    requires p < |w.procs|
  {
    var x := w.procs[p];
    var w' := w.(procs := w.procs[p := AfterAct(w, x, act)]);
    match act
    case LockCounter => w'.(owner := Some(p))
    case RequestStop => w'.(job := StopJob)
    case RequestStart | RequestRestart => w'.(job := StartJob)
    case Truncate => w'.(stored := 0)                    // an empty file reads as 0
    case Flush => w'.(stored := x.count + 1)
    case Unlock => w'.(owner := None, attached := w.attached + 1)
    case Fail | Interrupt =>
      w'.(owner := if Critical(x.pc) then None else w.owner, torn := w.torn || (x.pc.Emptied? && w.attached > 0))
    case _ => w'
  }

  predicate Enabled(w: World, e: Event) {
    match e
    case Client(p, act) => p < |w.procs| && CanAct(w, p, act)
    case Dispatch => !w.job.NoJob? || w.svc.Deactivating?
    case StartFails => w.svc.Activating?
    case Crash => w.svc.Up?
    case AdminStart => w.job.NoJob?
  }

  function Dispatched(w: World): World {
    if w.svc.Deactivating? then w.(svc := Down, job := if w.job.StopJob? then NoJob else w.job)
    else match w.job
         case NoJob => w
         case StopJob => if w.svc.Down? then w.(job := NoJob) else w.(svc := Deactivating)
         case StartJob =>
           if w.svc.Up? then w.(job := NoJob)
           else if w.svc.Down? then w.(svc := Activating)
           else w.(svc := Up, job := NoJob, attached := 0, torn := false)
  }

  function Next(w: World, e: Event): World
    requires Enabled(w, e)
  {
    match e
    case Client(p, act) => Acted(w, p, act)
    case Dispatch => Dispatched(w)
    case StartFails => w.(svc := Down, job := NoJob)
    case Crash => w.(svc := Down)
    case AdminStart => w.(job := StartJob)
  }

  /** Boot: tmpfiles has just created an empty counter file. */
  predicate Init(w: World) {
    && (forall p :: 0 <= p < |w.procs| ==> w.procs[p].pc.Idle? && w.procs[p].users.Free?)
    && w.owner.None? && w.stored == 0 && w.svc.Down? && w.job.NoJob? && w.attached == 0 && !w.torn
  }

  // ------------------------------------------------------------------ invariant

  /** What the program point says about the users lock and the local variables. */
  predicate LocalOk(x: Proc) {
    && (match x.pc
        case Idle | WantCounter | HasCounter | HasCount | Refused | WantExclusive | WantShared => x.users.Free?
        case NeedStop | Stopping | NeedStart | Starting | Converting | Installing => x.users.Exclusive?
        case Lingering => true
        case _ => x.users.Shared?)
    && (x.renewed && Critical(x.pc) ==> x.count == 0)
    && (match x.pc
        case WantCounter | HasCounter | HasCount | Refused | WantExclusive | NeedStop | Stopping | NeedStart
           | Starting | NeedRestart | Restarting => !x.renewed
        case Converting => x.renewed
        case _ => true)
    && (match x.pc
        case WantExclusive => x.active ==> x.count >= CLIENT_LIMIT
        case NeedStop | Stopping => x.count >= CLIENT_LIMIT
        case WantShared | NeedRestart | Restarting | AwaitPower | ReadyToWrite | Emptied | Written =>
          x.count < CLIENT_LIMIT
        case _ => true)
  }

  predicate OwnerOk(w: World) {
    && (forall p :: 0 <= p < |w.procs| ==> (w.owner == Some(p) <==> Critical(w.procs[p].pc)))
    && (w.owner.Some? ==> w.owner.value < |w.procs|)
  }

  predicate FlockOk(w: World) {
    forall p, q :: 0 <= p < |w.procs| && 0 <= q < |w.procs| && p != q && w.procs[p].users.Exclusive?
      ==> w.procs[q].users.Free?
  }

  predicate MayCoexistWithStop(pc: Pc) {
    !Critical(pc) || pc.HasCounter? || pc.HasCount? || pc.Refused? || pc.WantExclusive?
    || pc.NeedStop? || pc.Stopping? || pc.NeedStart? || pc.Starting?
  }

  /** While a stop is queued or under way nobody holds the users lock shared or is on
      the way to it, and the counter shows that the limit had been reached. */
  predicate StopOk(w: World) {
    && (w.job.StopJob? || w.svc.Deactivating? ==>
          forall p :: 0 <= p < |w.procs| ==> !w.procs[p].users.Shared? && MayCoexistWithStop(w.procs[p].pc))
    && (w.job.StopJob? ==> w.stored >= CLIENT_LIMIT)
    && (w.svc.Activating? ==> !w.job.NoJob?)
  }

  /** Until the counter holder rewrites the file, its copy of the count is the file's,
      unless it has started the service afresh. */
  predicate CopyLocal(x: Proc, stored: nat) {
    match x.pc
    case HasCount | Refused | WantExclusive | NeedStop | Stopping | NeedStart | Starting
       | WantShared | NeedRestart | Restarting | AwaitPower | ReadyToWrite =>
      !x.renewed ==> x.count == stored
    case Emptied => stored == 0
    case Written => stored == x.count + 1
    case _ => true
  }

  predicate CopyOk(w: World) {
    forall p :: 0 <= p < |w.procs| ==> CopyLocal(w.procs[p], w.stored)
  }

  /** The count that bounds the attached clients: the file's, or its writer's copy. */
  function Level(w: World): nat {
    if w.owner.None? || w.owner.value >= |w.procs| then w.stored
    else
      var x := w.procs[w.owner.value];
      if x.pc.Emptied? || x.pc.Written? then x.count else w.stored
  }

  /** Nobody has attached since the counter holder has found or made the service fresh. */
  predicate FreshLocal(x: Proc, up: bool, attached: nat) {
    attached == 0
    || (&& !(Critical(x.pc) && x.renewed)
        && !(x.pc.WantExclusive? && up && !x.active)
        && !((x.pc.NeedStart? || x.pc.Starting?) && up))
  }

  predicate FreshOk(w: World) {
    forall p :: 0 <= p < |w.procs| ==> FreshLocal(w.procs[p], w.svc.Up?, w.attached)
  }

  predicate CountOk(w: World) {
    w.stored <= CLIENT_LIMIT && (!w.torn ==> w.attached <= Level(w))
  }

  predicate LocalsOk(w: World) {
    forall p :: 0 <= p < |w.procs| ==> LocalOk(w.procs[p])
  }

  predicate Inv(w: World) {
    && LocalsOk(w)
    && OwnerOk(w)
    && FlockOk(w)
    && StopOk(w)
    && CopyOk(w)
    && FreshOk(w)
    && CountOk(w)
  }

  lemma LocalStep(w: World, p: nat, act: Act)
    requires p < |w.procs| && CanAct(w, p, act) && LocalsOk(w)
    ensures LocalsOk(Acted(w, p, act))
  {
    assert LocalOk(AfterAct(w, w.procs[p], act));
  }

  lemma OwnerStep(w: World, p: nat, act: Act)
    requires p < |w.procs| && CanAct(w, p, act) && OwnerOk(w)
    ensures OwnerOk(Acted(w, p, act))
  {
  }

  lemma FlockStep(w: World, p: nat, act: Act)
    requires p < |w.procs| && CanAct(w, p, act) && FlockOk(w) && LocalOk(w.procs[p])
    ensures FlockOk(Acted(w, p, act))
  {
  }

  lemma StopStep(w: World, p: nat, act: Act)
    requires p < |w.procs| && CanAct(w, p, act) && Inv(w)
    ensures StopOk(Acted(w, p, act))
  {
  }

  /** The file, the service and its clients change only under the counter lock. */
  lemma OthersUncritical(w: World, p: nat, act: Act, q: nat)
    requires p < |w.procs| && CanAct(w, p, act) && OwnerOk(w) && q < |w.procs| && q != p
    ensures var w' := Acted(w, p, act);
      w'.stored != w.stored || w'.attached != w.attached ==> !Critical(w.procs[q].pc)
  {
  }

  lemma CopyMine(w: World, p: nat, act: Act)
    requires p < |w.procs| && CanAct(w, p, act) && LocalOk(w.procs[p]) && CopyLocal(w.procs[p], w.stored)
    ensures CopyLocal(AfterAct(w, w.procs[p], act), Acted(w, p, act).stored)
  {
  }

  lemma CopyStep(w: World, p: nat, act: Act)
    requires p < |w.procs| && CanAct(w, p, act) && LocalsOk(w) && OwnerOk(w) && CopyOk(w)
    ensures CopyOk(Acted(w, p, act))
  {
    var w' := Acted(w, p, act);
    assert w'.procs == w.procs[p := AfterAct(w, w.procs[p], act)];
    CopyMine(w, p, act);
    hide Acted, AfterAct, CanAct, OwnerOk;
    forall q | 0 <= q < |w.procs| && q != p ensures CopyLocal(w.procs[q], w'.stored) {
      OthersUncritical(w, p, act, q);
    }
  }

  lemma FreshMine(w: World, p: nat, act: Act)
    requires p < |w.procs| && CanAct(w, p, act) && LocalOk(w.procs[p])
    requires FreshLocal(w.procs[p], w.svc.Up?, w.attached)
    ensures FreshLocal(AfterAct(w, w.procs[p], act), w.svc.Up?, Acted(w, p, act).attached)
  {
  }

  lemma FreshStep(w: World, p: nat, act: Act)
    requires p < |w.procs| && CanAct(w, p, act) && LocalsOk(w) && OwnerOk(w) && FreshOk(w)
    ensures FreshOk(Acted(w, p, act))
  {
    var w' := Acted(w, p, act);
    assert w'.procs == w.procs[p := AfterAct(w, w.procs[p], act)] && w'.svc == w.svc;
    FreshMine(w, p, act);
    hide Acted, AfterAct, CanAct, OwnerOk;
    forall q | 0 <= q < |w.procs| && q != p ensures FreshLocal(w.procs[q], w.svc.Up?, w'.attached) {
      OthersUncritical(w, p, act, q);
    }
  }

  lemma CountStep(w: World, p: nat, act: Act)
    requires p < |w.procs| && CanAct(w, p, act) && Inv(w)
    ensures CountOk(Acted(w, p, act))
  {
  }

  lemma ServiceStep(w: World, e: Event)
    requires Inv(w) && Enabled(w, e) && !e.Client?
    ensures Inv(Next(w, e))
  {
    var w' := Next(w, e);
    assert w'.procs == w.procs && w'.owner == w.owner && w'.stored == w.stored;
    assert (w'.attached == w.attached && w'.torn == w.torn) || (w'.attached == 0 && !w'.torn);
  }

  lemma ClientStep(w: World, p: nat, act: Act, w': World)
    requires Inv(w) && p < |w.procs| && CanAct(w, p, act) && w' == Acted(w, p, act)
    ensures Inv(w')
  {
    LocalStep(w, p, act);
    OwnerStep(w, p, act);
    FlockStep(w, p, act);
    StopStep(w, p, act);
    CopyStep(w, p, act);
    FreshStep(w, p, act);
    CountStep(w, p, act);
  }

  lemma StepKeepsInv(w: World, e: Event)
    requires Inv(w) && Enabled(w, e)
    ensures Inv(Next(w, e))
  {
    match e
    case Client(p, act) => ClientStep(w, p, act, Next(w, e));
    case _ => ServiceStep(w, e);
  }

  // ------------------------------------------------------------------ safety over all runs

  ghost predicate IsRun(run: seq<World>, events: seq<Event>) {
    && |run| == |events| + 1
    && Init(run[0])
    && forall i :: 0 <= i < |events| ==> Enabled(run[i], events[i]) && run[i + 1] == Next(run[i], events[i])
  }

  lemma {:induction false} RunKeepsInv(run: seq<World>, events: seq<Event>, i: nat)
    requires IsRun(run, events) && i < |run|
    ensures Inv(run[i])
  {
    if i > 0 {
      RunKeepsInv(run, events, i - 1);
      StepKeepsInv(run[i - 1], events[i - 1]);
    }
  }

  /** No acquisition ever stops the service under a client: whoever asks for the stop is
      alone on the users lock, and from the request until the service is down nobody holds
      it shared, even if the requester has died and its stop is still queued. */
  lemma NeverStopsUnderAClient(run: seq<World>, events: seq<Event>, i: nat)
    requires IsRun(run, events) && i < |run|
    ensures run[i].job.StopJob? || run[i].svc.Deactivating? ==> NoneElse(run[i], |run[i].procs|, Shared)
    ensures i < |events| && events[i].Client? && events[i].act.RequestStop? ==>
              var p := events[i].p;
              && run[i].procs[p].users.Exclusive?
              && NoneElse(run[i], p, Shared) && NoneElse(run[i], p, Exclusive)
  {
    RunKeepsInv(run, events, i);
    if i < |events| && events[i].Client? && events[i].act.RequestStop? {
      assert CanAct(run[i], events[i].p, RequestStop);
      assert LocalOk(run[i].procs[events[i].p]);
    }
  }

  /** Unless a counter write was torn since the service came up, the clients attached since
      then never exceed the stored count while the counter lock is free, and never the limit
      at all. */
  lemma AttachedWithinLimit(run: seq<World>, events: seq<Event>, i: nat)
    requires IsRun(run, events) && i < |run| && !run[i].torn
    ensures run[i].owner.None? ==> run[i].attached <= run[i].stored <= CLIENT_LIMIT
    ensures run[i].attached <= CLIENT_LIMIT < PROCESS_LIMIT
  {
    RunKeepsInv(run, events, i);
    var w := run[i];
    if w.owner.Some? {
      assert LocalOk(w.procs[w.owner.value]);
    }
  }

  /** A counter holder dies between truncate and flush while clients are attached. */
  predicate TornDeath(w: World, e: Event) {
    && e.Client? && e.p < |w.procs| && w.procs[e.p].pc.Emptied?
    && (e.act.Fail? || e.act.Interrupt?)
    && w.attached > 0
  }

  /** The service becomes active. */
  predicate ComesUp(w: World, e: Event) {
    e.Dispatch? && w.svc.Activating? && w.job.StartJob?
  }

  predicate Bounded(w: World) {
    w.owner.None? ==> w.attached <= w.stored <= CLIENT_LIMIT
  }

  /** What the flag remembers. */
  lemma {:induction false} TornIff(run: seq<World>, events: seq<Event>, i: nat)
    requires IsRun(run, events) && i < |run|
    ensures run[i].torn <==> exists j :: 0 <= j < i && TornDeath(run[j], events[j])
                                         && forall k :: j < k < i ==> !ComesUp(run[k], events[k])
  {
    if i > 0 {
      TornIff(run, events, i - 1);
      assert run[i] == Next(run[i - 1], events[i - 1]);
      if run[i].torn && !TornDeath(run[i - 1], events[i - 1]) {
        assert run[i - 1].torn && !ComesUp(run[i - 1], events[i - 1]);
        var j :| 0 <= j < i - 1 && TornDeath(run[j], events[j])
                 && forall k :: j < k < i - 1 ==> !ComesUp(run[k], events[k]);
        assert forall k :: j < k < i ==> !ComesUp(run[k], events[k]);
      }
    }
  }

  /** A torn death leaves an empty file behind attached clients. */
  lemma TornDeathBreaksBound(w: World, e: Event)
    requires Inv(w) && Enabled(w, e) && TornDeath(w, e)
    ensures !Bounded(Next(w, e))
  {
    assert w.stored == 0 && Critical(w.procs[e.p].pc);
  }

  /** From boot, or from any moment the service comes up, the bound holds at every state up
      to n if and only if no writer died inside its write while clients were attached. */
  lemma BoundHoldsIff(run: seq<World>, events: seq<Event>, s: nat, n: nat)
    requires IsRun(run, events) && s <= n < |run|
    requires s == 0 || ComesUp(run[s - 1], events[s - 1])
    ensures (forall i :: s <= i <= n ==> Bounded(run[i]))
       <==> (forall j :: s <= j < n ==> !TornDeath(run[j], events[j]))
  {
    if j :| s <= j < n && TornDeath(run[j], events[j]) {
      RunKeepsInv(run, events, j);
      TornDeathBreaksBound(run[j], events[j]);
      assert !Bounded(run[j + 1]);
    } else {
      forall i | s <= i <= n ensures Bounded(run[i]) {
        TornIff(run, events, i);
        AttachedWithinLimit(run, events, i);
      }
    }
  }

  ghost predicate Reachable(w: World) {
    exists run, events :: IsRun(run, events) && run[|events|] == w
  }

  lemma ReachInit(w: World)
    requires Init(w)
    ensures Reachable(w)
  {
    var run: seq<World>, events: seq<Event> := [w], [];
    assert IsRun(run, events) && run[|events|] == w;
  }

  lemma Reach(w: World, e: Event, w': World)
    requires Reachable(w) && Enabled(w, e) && w' == Next(w, e)
    ensures Reachable(w')
  {
    var run, events :| IsRun(run, events) && run[|events|] == w;
    assert IsRun(run + [w'], events + [e]);
    assert (run + [w'])[|events + [e]|] == w';
  }

  lemma ReachAct(w: World, p: nat, act: Act) returns (w': World)
    requires Reachable(w) && p < |w.procs| && CanAct(w, p, act)
    ensures Reachable(w') && w' == Acted(w, p, act)
  {
    w' := Acted(w, p, act);
    Reach(w, Client(p, act), w');
  }

  /** An unstarted process takes the free counter and reads it. */
  lemma TakesCounter(w: World, p: nat, x: Proc) returns (w': World)
    requires Reachable(w) && p < |w.procs| && w.procs[p] == x && x.pc.Idle? && !x.kind.Installer? && w.owner.None?
    ensures Reachable(w')
    ensures w' == w.(procs := w.procs[p := x.(pc := HasCount, renewed := false, count := w.stored)], owner := Some(p))
  {
    w' := ReachAct(w, p, OpenCounter);
    w' := ReachAct(w', p, LockCounter);
    w' := ReachAct(w', p, ReadCount);
  }

  /** The first client of a boot finds a count of 0. */
  lemma FirstClientCounts(q: Proc) returns (w: World)
    requires q.pc.Idle? && q.users.Free?
    ensures Reachable(w)
    ensures w == World([Proc(Ai, HasCount, Free, 0, false, false), q], Some(0), 0, Down, NoJob, 0, false)
  {
    var x := Proc(Ai, Idle, Free, 0, false, false);
    w := World([x, q], None, 0, Down, NoJob, 0, false);
    ReachInit(w);
    hide Reachable;
    w := TakesCounter(w, 0, x);
    assert w.procs == [Proc(Ai, HasCount, Free, 0, false, false), q];
  }

  /** And starts the service. */
  lemma FirstClientStarts(q: Proc) returns (w: World)
    requires q.pc.Idle? && q.users.Free?
    ensures Reachable(w)
    ensures w == World([Proc(Ai, Starting, Exclusive, 0, false, false), q], Some(0), 0, Down, StartJob, 0, false)
  {
    hide Reachable;
    w := FirstClientCounts(q);
    w := ReachAct(w, 0, CheckActive);
    w := ReachAct(w, 0, LockExclusive);
    w := ReachAct(w, 0, RequestStart);
    assert w.procs == [Proc(Ai, Starting, Exclusive, 0, false, false), q];
  }

  lemma FirstClientConverts(q: Proc) returns (w: World)
    requires q.pc.Idle? && q.users.Free?
    ensures Reachable(w)
    ensures w == World([Proc(Ai, WantShared, Free, 0, false, true), q], Some(0), 0, Up, NoJob, 0, false)
  {
    var starting := FirstClientStarts(q);
    w := starting.(svc := Activating);
    Reach(starting, Dispatch, w);
    Reach(w, Dispatch, starting.(svc := Up, job := NoJob));
    w := ReachAct(starting.(svc := Up, job := NoJob), 0, StartDone);
    w := ReachAct(w, 0, DropExclusive);
    assert w.procs == [Proc(Ai, WantShared, Free, 0, false, true), q];
  }

  lemma FirstClientWrites(q: Proc) returns (w: World)
    requires q.pc.Idle? && q.users.Free?
    ensures Reachable(w)
    ensures w == World([Proc(Ai, Emptied, Shared, 0, false, true), q], Some(0), 0, Up, NoJob, 0, false)
  {
    w := FirstClientConverts(q);
    w := ReachAct(w, 0, LockShared);
    w := ReachAct(w, 0, Truncate);
    assert w.procs == [Proc(Ai, Emptied, Shared, 0, false, true), q];
  }

  lemma FirstClientAttaches(q: Proc) returns (w: World)
    requires q.pc.Idle? && q.users.Free?
    ensures Reachable(w)
    ensures w == World([Proc(Ai, Attached, Shared, 0, false, true), q], None, 1, Up, NoJob, 1, false)
  {
    w := FirstClientWrites(q);
    w := ReachAct(w, 0, Flush);
    w := ReachAct(w, 0, Unlock);
    assert w.procs == [Proc(Ai, Attached, Shared, 0, false, true), q];
  }

  lemma SecondClientShares() returns (w: World)
    ensures Reachable(w)
    ensures w == World([Proc(Ai, Attached, Shared, 0, false, true), Proc(Ai, Restarting, Shared, 1, true, false)],
                       Some(1), 1, Up, StartJob, 1, false)
  {
    var x := Proc(Ai, Idle, Free, 0, false, false);
    w := FirstClientAttaches(x);
    w := TakesCounter(w, 1, x);
    w := ReachAct(w, 1, CheckActive);
    w := ReachAct(w, 1, LockShared);
    w := ReachAct(w, 1, RequestRestart);
    assert w.procs == [Proc(Ai, Attached, Shared, 0, false, true), Proc(Ai, Restarting, Shared, 1, true, false)];
  }

  /** A run in which a second client dies inside its counter write: one client is attached
      while the free counter says none is. */
  lemma TornWriteBreaksTheBound() returns (w: World)
    ensures Reachable(w) && w.owner.None? && w.attached == 1 && w.stored == 0
  {
    var sharing := SecondClientShares();
    w := sharing.(job := NoJob);
    Reach(sharing, Dispatch, w);
    w := ReachAct(w, 1, RestartDone);
    w := ReachAct(w, 1, Truncate);
    w := ReachAct(w, 1, Interrupt);
  }

  // ------------------------------------------------------------------ no dead ends

  function Rank(pc: Pc): nat {
    match pc
    case Idle => 0
    case Attached | Lingering | Installing => 1
    case Written => 2
    case Emptied => 3
    case ReadyToWrite => 4
    case AwaitPower => 5
    case Restarting => 6
    case NeedRestart => 11
    case WantShared => 12
    case Converting => 13
    case Starting => 14
    case NeedStart => 19
    case Stopping => 20
    case NeedStop => 25
    case WantExclusive | Refused => 26
    case HasCount => 27
    case HasCounter => 28
    case WantCounter => 29
  }

  function ServiceRank(svc: Service, job: Job): nat {
    match job
    case NoJob => if svc.Deactivating? then 1 else 0
    case StartJob => (match svc case Up => 1 case Activating => 2 case Down => 3 case Deactivating => 4)
    case StopJob => (match svc case Down => 1 case Deactivating => 2 case _ => 3)
  }

  function Total(procs: seq<Proc>): nat {
    if procs == [] then 0 else Rank(procs[0].pc) + Total(procs[1..])
  }

  function Measure(w: World): nat {
    Total(w.procs) + ServiceRank(w.svc, w.job)
  }

  lemma {:induction false} TotalUpdate(procs: seq<Proc>, p: nat, x: Proc)
    requires p < |procs|
    ensures Total(procs[p := x]) + Rank(procs[p].pc) == Total(procs) + Rank(x.pc)
  {
    if p > 0 {
      assert procs[p := x][1..] == procs[1..][p - 1 := x];
      TotalUpdate(procs[1..], p - 1, x);
    } else {
      assert procs[p := x][1..] == procs[1..];
    }
  }

  predicate AllIdle(w: World) {
    forall p :: 0 <= p < |w.procs| ==> w.procs[p].pc.Idle?
  }

  /** Steps that are not faults: a failure counts only where the code itself raises, at
      the limit or when systemctl has finished without reaching the wanted state. */
  predicate Normal(w: World, e: Event) {
    match e
    case Dispatch => true
    case Client(p, act) =>
      && p < |w.procs|
      && !act.Interrupt? && !act.OpenCounter? && !act.InstallTry?
      && (act.Fail? ==>
            var pc := w.procs[p].pc;
            || pc.Refused?
            || (w.job.NoJob? && pc.Stopping? && !w.svc.Down?)
            || (w.job.NoJob? && (pc.Starting? || pc.Restarting?) && !w.svc.Up?))
    case _ => false
  }

  predicate Advances(w: World, e: Event) {
    Enabled(w, e) && Normal(w, e) && Measure(Next(w, e)) < Measure(w)
  }

  lemma RankDrops(w: World, p: nat, act: Act)
    requires p < |w.procs| && CanAct(w, p, act) && Normal(w, Client(p, act)) && LocalOk(w.procs[p])
    requires w.job.StopJob? || w.svc.Deactivating? ==> MayCoexistWithStop(w.procs[p].pc)
    ensures var x', w' := AfterAct(w, w.procs[p], act), Acted(w, p, act);
      Rank(x'.pc) + ServiceRank(w'.svc, w'.job) < Rank(w.procs[p].pc) + ServiceRank(w.svc, w.job)
  {
  }

  lemma ActAdvances(w: World, p: nat, act: Act)
    requires p < |w.procs| && CanAct(w, p, act) && Normal(w, Client(p, act)) && Inv(w)
    ensures Advances(w, Client(p, act))
  {
    RankDrops(w, p, act);
    TotalUpdate(w.procs, p, AfterAct(w, w.procs[p], act));
    assert Acted(w, p, act).procs == w.procs[p := AfterAct(w, w.procs[p], act)];
    assert Next(w, Client(p, act)) == Acted(w, p, act);
    hide Acted, AfterAct, CanAct, Normal, Total, Rank, ServiceRank, Inv;
  }

  /** Outside the counter lock a process only waits for the counter. */
  lemma BystanderAdvances(w: World, p: nat) returns (e: Event)
    requires Inv(w) && p < |w.procs|
    requires w.procs[p].pc.Attached? || w.procs[p].pc.Lingering? || w.procs[p].pc.Installing?
    ensures Advances(w, e)
  {
    var act := if w.procs[p].pc.Attached? then Finish else if w.procs[p].pc.Lingering? then LetGo else InstallDone;
    ActAdvances(w, p, act);
    e := Client(p, act);
  }

  lemma WaiterAdvances(w: World, o: nat) returns (e: Event)
    requires Inv(w) && w.owner == Some(o)
    requires w.procs[o].pc.Stopping? || w.procs[o].pc.Starting? || w.procs[o].pc.Restarting?
    ensures Advances(w, e)
  {
    var pc := w.procs[o].pc;
    if !w.job.NoJob? || w.svc.Deactivating? {
      e := Dispatch;
    } else {
      var act := if pc.Stopping? then (if w.svc.Down? then StopDone else Fail)
                 else if !w.svc.Up? then Fail
                 else if pc.Starting? then StartDone else RestartDone;
      ActAdvances(w, o, act);
      e := Client(o, act);
    }
  }

  /** A blocked holder of the counter lock waits only for processes that can let go. */
  lemma BlockedAdvances(w: World, o: nat) returns (e: Event)
    requires Inv(w) && w.owner == Some(o)
    requires w.procs[o].pc.WantExclusive? || w.procs[o].pc.WantShared?
    ensures Advances(w, e)
  {
    var act := if w.procs[o].pc.WantExclusive? then LockExclusive else LockShared;
    if CanAct(w, o, act) {
      ActAdvances(w, o, act);
      e := Client(o, act);
    } else {
      var q :| 0 <= q < |w.procs| && q != o && !w.procs[q].users.Free?;
      assert LocalOk(w.procs[q]) && !Critical(w.procs[q].pc);
      e := BystanderAdvances(w, q);
    }
  }

  lemma OwnerAdvances(w: World, o: nat) returns (e: Event)
    requires Inv(w) && w.owner == Some(o)
    ensures Advances(w, e)
  {
    var pc := w.procs[o].pc;
    if pc.Stopping? || pc.Starting? || pc.Restarting? {
      e := WaiterAdvances(w, o);
    } else if pc.WantExclusive? || pc.WantShared? {
      e := BlockedAdvances(w, o);
    } else {
      var act := if pc.HasCounter? then ReadCount else if pc.HasCount? then CheckActive
                 else if pc.Refused? then Fail else if pc.NeedStop? then RequestStop
                 else if pc.NeedStart? then RequestStart else if pc.Converting? then DropExclusive
                 else if pc.NeedRestart? then RequestRestart else if pc.AwaitPower? then PowerReady
                 else if pc.ReadyToWrite? then Truncate else if pc.Emptied? then Flush else Unlock;
      ActAdvances(w, o, act);
      e := Client(o, act);
    }
  }

  /** No deadlock: while any process is busy, some fault-free step is possible, and it
      brings everybody closer to done. */
  lemma NoDeadlock(w: World) returns (e: Event)
    requires Inv(w) && !AllIdle(w)
    ensures Advances(w, e)
  {
    if w.owner.Some? {
      e := OwnerAdvances(w, w.owner.value);
    } else {
      var p :| 0 <= p < |w.procs| && !w.procs[p].pc.Idle?;
      if w.procs[p].pc.WantCounter? {
        ActAdvances(w, p, LockCounter);
        e := Client(p, LockCounter);
      } else {
        e := BystanderAdvances(w, p);
      }
    }
  }

  predicate FinishesBy(w: World, events: seq<Event>)
    decreases |events|
  {
    if events == [] then AllIdle(w)
    else Enabled(w, events[0]) && Normal(w, events[0]) && FinishesBy(Next(w, events[0]), events[1..])
  }

  /** From every reachable state all processes can still run to completion without a fault. */
  lemma {:induction false} AlwaysCanFinish(w: World) returns (events: seq<Event>)
    requires Inv(w)
    ensures FinishesBy(w, events)
    decreases Measure(w)
  {
    if AllIdle(w) {
      events := [];
    } else {
      var e := NoDeadlock(w);
      StepKeepsInv(w, e);
      var rest := AlwaysCanFinish(Next(w, e));
      events := [e] + rest;
    }
  }

  lemma EveryReachableStateCanFinish(run: seq<World>, events: seq<Event>, i: nat) returns (rest: seq<Event>)
    requires IsRun(run, events) && i < |run|
    ensures FinishesBy(run[i], rest)
  {
    RunKeepsInv(run, events, i);
    rest := AlwaysCanFinish(run[i]);
  }
}
