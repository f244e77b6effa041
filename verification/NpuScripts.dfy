/**
 The two acquisition scripts as lists of steps, and the theorem that every client that
 attaches, in any interleaving, has gone through its own script's list for the situation it
 found: scripts/gts9u-ai.py restarts the service at the limit, scripts/gts9u-npu-app.py
 refuses there.
 */
module NpuScripts {
  import opened Bytes
  import opened NpuClients

  const OPENING: seq<Act> := [OpenCounter, LockCounter, ReadCount, CheckActive]
  const RESTART: seq<Act> := [LockExclusive, RequestStop, StopDone, RequestStart, StartDone, DropExclusive, LockShared]
  const COLD_START: seq<Act> := [LockExclusive, RequestStart, StartDone, DropExclusive, LockShared]
  const JOIN: seq<Act> := [LockShared, RequestRestart, RestartDone]
  const WRITE: seq<Act> := [Truncate, Flush, Unlock]

  function PowerWait(kind: Kind): seq<Act> {
    if kind.App? then [PowerReady] else []
  }

  /** A successful acquisition, by script and by what is-active and the counter said. */
  function Script(kind: Kind, up: bool, full: bool): seq<Act> {
    OPENING + (if !up then COLD_START else if full then RESTART else JOIN) + PowerWait(kind) + WRITE
  }

  /** What process p has done since it last opened the counter. */
  function Acts(events: seq<Event>, p: nat, i: nat): seq<Act>
    requires i <= |events|
  {
    if i == 0 then []
    else if events[i - 1].Client? && events[i - 1].p == p then
      (if events[i - 1].act.OpenCounter? then [] else Acts(events, p, i - 1)) + [events[i - 1].act]
    else Acts(events, p, i - 1)
  }

  predicate Acquiring(pc: Pc) { Critical(pc) || pc.WantCounter? }

  predicate PastCheck(pc: Pc) {
    Critical(pc) && !pc.HasCounter? && !pc.HasCount?
  }

  // ------------------------------------------------------------------ along a run

  /** The steps behind a program point. */
  function Path(x: Proc): seq<Act> {
    var asked := OPENING;
    var anew := OPENING + if x.active then RESTART else COLD_START;
    var served := if x.renewed then anew else OPENING + JOIN;
    match x.pc
    case WantCounter => asked[..1]
    case HasCounter => asked[..2]
    case HasCount => asked[..3]
    case Refused | WantExclusive => asked
    case NeedStop => anew[..5]
    case Stopping => anew[..6]
    case NeedStart => anew[..|anew| - 4]
    case Starting => anew[..|anew| - 3]
    case Converting => anew[..|anew| - 2]
    case WantShared => if x.renewed then anew[..|anew| - 1] else asked
    case NeedRestart => served[..5]
    case Restarting => served[..6]
    case AwaitPower => served
    case ReadyToWrite => served + PowerWait(x.kind)
    case Emptied => served + PowerWait(x.kind) + WRITE[..1]
    case Written => served + PowerWait(x.kind) + WRITE[..2]
    case _ => []
  }

  lemma NextOf(s: seq<Act>, k: nat)
    requires k < |s|
    ensures s[..k + 1] == s[..k] + [s[k]] && s[..|s|] == s
  {
  }

  /** What a program point says about the service and the script. */
  predicate KnowsWhy(x: Proc) {
    (x.pc.NeedStop? || x.pc.Stopping? ==> x.active) && (x.pc.AwaitPower? ==> x.kind.App?)
  }

  predicate Starts(act: Act) {
    act.RequestStop? || act.StopDone? || act.RequestStart? || act.StartDone? || act.DropExclusive?
  }

  lemma StartGrows(w: World, p: nat, act: Act)
    requires p < |w.procs| && CanAct(w, p, act) && LocalOk(w.procs[p]) && KnowsWhy(w.procs[p]) && Starts(act)
    ensures Path(AfterAct(w, w.procs[p], act)) == Path(w.procs[p]) + [act]
  {
    var anew := OPENING + if w.procs[p].active then RESTART else COLD_START;
    var n := |anew|;
    match act
    case RequestStop => NextOf(anew, 5);
    case StopDone => NextOf(anew, 6);
    case RequestStart => NextOf(anew, n - 4);
    case StartDone => NextOf(anew, n - 3);
    case DropExclusive => NextOf(anew, n - 2);
  }

  lemma ExclusiveGrows(w: World, p: nat)
    requires p < |w.procs| && CanAct(w, p, LockExclusive)
    ensures Path(AfterAct(w, w.procs[p], LockExclusive)) == Path(w.procs[p]) + [LockExclusive]
  {
    var anew := OPENING + if w.procs[p].active then RESTART else COLD_START;
    NextOf(anew, 4);
    assert anew[..4] == OPENING;
  }

  lemma SharedGrows(w: World, p: nat)
    requires p < |w.procs| && CanAct(w, p, LockShared)
    ensures Path(AfterAct(w, w.procs[p], LockShared)) == Path(w.procs[p]) + [LockShared]
  {
    var anew := OPENING + if w.procs[p].active then RESTART else COLD_START;
    if w.procs[p].renewed {
      NextOf(anew, |anew| - 1);
    } else {
      NextOf(OPENING + JOIN, 4);
      assert (OPENING + JOIN)[..4] == OPENING;
    }
  }

  lemma JoinGrows(w: World, p: nat, act: Act)
    requires p < |w.procs| && CanAct(w, p, act) && LocalOk(w.procs[p]) && (act.RequestRestart? || act.RestartDone?)
    ensures Path(AfterAct(w, w.procs[p], act)) == Path(w.procs[p]) + [act]
  {
    var joined := OPENING + JOIN;
    NextOf(joined, 5);
    NextOf(joined, 6);
  }

  lemma WriteGrows(w: World, p: nat, act: Act)
    requires p < |w.procs| && CanAct(w, p, act) && KnowsWhy(w.procs[p])
    requires act.PowerReady? || act.Truncate? || act.Flush?
    ensures Path(AfterAct(w, w.procs[p], act)) == Path(w.procs[p]) + [act]
  {
    NextOf(WRITE, 0);
    NextOf(WRITE, 1);
  }

  /** Each step of an acquisition is the next one of its list. */
  lemma PathGrows(w: World, p: nat, act: Act)
    requires p < |w.procs| && CanAct(w, p, act) && LocalOk(w.procs[p]) && KnowsWhy(w.procs[p]) && !act.OpenCounter?
    ensures var x, x' := w.procs[p], AfterAct(w, w.procs[p], act);
      Acquiring(x'.pc) ==> Acquiring(x.pc) && Path(x') == Path(x) + [act]
  {
    if Starts(act) {
      StartGrows(w, p, act);
    } else {
      match act
      case LockCounter => NextOf(OPENING, 1);
      case ReadCount => NextOf(OPENING, 2);
      case CheckActive => NextOf(OPENING, 3);
      case LockExclusive => ExclusiveGrows(w, p);
      case LockShared => SharedGrows(w, p);
      case RequestRestart | RestartDone => JoinGrows(w, p, act);
      case PowerReady | Truncate | Flush => WriteGrows(w, p, act);
      case _ =>
    }
  }

  /** What a process past is-active remembers of what it found. */
  predicate Fits(x: Proc, up: bool, stored: nat) {
    && x.active == up
    && (!x.renewed ==> x.count == stored)
    && (x.pc.AwaitPower? ==> x.kind.App?)
    && (match x.pc
        case Refused => x.kind.App? && up && stored >= CLIENT_LIMIT
        case NeedStop | Stopping => x.kind.Ai? && up && stored >= CLIENT_LIMIT
        case WantExclusive | NeedStart | Starting | Converting => !up || (x.kind.Ai? && stored >= CLIENT_LIMIT)
        case _ =>
          if x.renewed then !up || (x.kind.Ai? && stored >= CLIENT_LIMIT) else up && stored < CLIENT_LIMIT)
  }

  lemma FitsStays(w: World, p: nat, act: Act, up: bool, stored: nat)
    requires p < |w.procs| && CanAct(w, p, act) && LocalOk(w.procs[p])
    requires PastCheck(w.procs[p].pc) && Fits(w.procs[p], up, stored)
    ensures var x' := AfterAct(w, w.procs[p], act); PastCheck(x'.pc) ==> Fits(x', up, stored)
  {
  }

  lemma FitsStarts(w: World, p: nat)
    requires p < |w.procs| && CanAct(w, p, CheckActive) && LocalOk(w.procs[p]) && CopyLocal(w.procs[p], w.stored)
    requires !w.procs[p].kind.Installer?
    ensures Fits(AfterAct(w, w.procs[p], CheckActive), w.svc.Up?, w.stored)
  {
  }

  /** Step c is where p last asked is-active, in the acquisition it is in before step i. */
  ghost predicate CheckedAt(events: seq<Event>, p: nat, c: nat, i: nat) {
    && c < i <= |events|
    && events[c] == Client(p, CheckActive)
    && forall k :: c < k < i ==> events[k] != Client(p, OpenCounter) && events[k] != Client(p, CheckActive)
  }

  ghost predicate Follows(run: seq<World>, events: seq<Event>, p: nat, i: nat)
    requires i <= |events| && i < |run|
  {
    p < |run[i].procs| ==>
      var x := run[i].procs[p];
      && (Acquiring(x.pc) ==> !x.kind.Installer? && Acts(events, p, i) == Path(x))
      && (PastCheck(x.pc) ==> exists c :: 0 <= c < |run| && CheckedAt(events, p, c, i)
                                          && Fits(x, run[c].svc.Up?, run[c].stored))
  }

  lemma OthersStay(run: seq<World>, events: seq<Event>, p: nat, i: nat)
    requires IsRun(run, events) && i < |events| && Follows(run, events, p, i)
    requires !(events[i].Client? && events[i].p == p)
    requires |run[i + 1].procs| == |run[i].procs|
    requires p < |run[i].procs| ==> run[i + 1].procs[p] == run[i].procs[p]
    ensures Follows(run, events, p, i + 1)
  {
    if p < |run[i].procs| && PastCheck(run[i].procs[p].pc) {
      var c :| 0 <= c < |run| && CheckedAt(events, p, c, i)
               && Fits(run[i].procs[p], run[c].svc.Up?, run[c].stored);
      assert CheckedAt(events, p, c, i + 1);
    }
  }

  lemma OwnStep(run: seq<World>, events: seq<Event>, p: nat, i: nat, act: Act)
    requires IsRun(run, events) && i < |events| && Follows(run, events, p, i) && Inv(run[i])
    requires events[i] == Client(p, act) && p < |run[i].procs| && CanAct(run[i], p, act)
    requires |run[i + 1].procs| == |run[i].procs|
    requires run[i + 1].procs[p] == AfterAct(run[i], run[i].procs[p], act)
    ensures Follows(run, events, p, i + 1)
  {
    var w := run[i];
    var x, x' := w.procs[p], run[i + 1].procs[p];
    assert LocalOk(x) && CopyLocal(x, w.stored);
    if !act.OpenCounter? {
      PathKnown(w, p, run, events, i);
      PathGrows(w, p, act);
      if act.CheckActive? {
        FitsStarts(w, p);
        assert CheckedAt(events, p, i, i + 1);
      } else if PastCheck(x'.pc) {
        PastCheckFrom(w, p, act);
        var c :| 0 <= c < |run| && CheckedAt(events, p, c, i) && Fits(x, run[c].svc.Up?, run[c].stored);
        FitsStays(w, p, act, run[c].svc.Up?, run[c].stored);
        assert CheckedAt(events, p, c, i + 1);
      }
    }
  }

  lemma PathKnown(w: World, p: nat, run: seq<World>, events: seq<Event>, i: nat)
    requires i <= |events| && i < |run| && w == run[i] && Follows(run, events, p, i) && p < |w.procs|
    ensures KnowsWhy(w.procs[p])
  {
  }

  lemma PastCheckFrom(w: World, p: nat, act: Act)
    requires p < |w.procs| && CanAct(w, p, act) && PastCheck(AfterAct(w, w.procs[p], act).pc) && !act.CheckActive?
    ensures PastCheck(w.procs[p].pc)
  {
  }

  /** Only its own steps change a process. */
  lemma StepShape(w: World, e: Event, p: nat)
    requires Enabled(w, e)
    ensures var w' := Next(w, e);
      && |w'.procs| == |w.procs|
      && if e.Client? && e.p == p
         then p < |w.procs| && CanAct(w, p, e.act) && w'.procs[p] == AfterAct(w, w.procs[p], e.act)
         else p < |w.procs| ==> w'.procs[p] == w.procs[p]
  {
  }

  lemma BootFollows(run: seq<World>, events: seq<Event>, p: nat)
    requires IsRun(run, events)
    ensures Follows(run, events, p, 0)
  {
  }

  lemma {:induction false} RunFollows(run: seq<World>, events: seq<Event>, p: nat, i: nat)
    requires IsRun(run, events) && i < |run|
    ensures Follows(run, events, p, i)
  {
    hide Inv, Follows, Enabled, Next, CanAct, AfterAct, Init;
    if i == 0 {
      BootFollows(run, events, p);
    } else {
      var j := i - 1;
      RunFollows(run, events, p, j);
      RunKeepsInv(run, events, j);
      assert Enabled(run[j], events[j]) && run[j + 1] == Next(run[j], events[j]);
      StepShape(run[j], events[j], p);
      hide IsRun;
      if events[j].Client? && events[j].p == p {
        OwnStep(run, events, p, j, events[j].act);
      } else {
        OthersStay(run, events, p, j);
      }
    }
  }

  // ------------------------------------------------------------------ theorems

  /** A client attaches only at the end of its own script, as chosen by what it found, and
      leaves a count one above the one it read, or 1 after starting the service itself.  The
      app never attaches to a full service. */
  lemma AttachesByScript(run: seq<World>, events: seq<Event>, p: nat, i: nat) returns (c: nat)
    requires IsRun(run, events) && i < |events| && events[i] == Client(p, Unlock)
    ensures p < |run[i].procs| && CheckedAt(events, p, c, i) && c < |run|
    ensures var kind, up, full := run[i].procs[p].kind, run[c].svc.Up?, run[c].stored >= CLIENT_LIMIT;
      && !kind.Installer?
      && Acts(events, p, i + 1) == Script(kind, up, full)
      && run[i].stored == (if up && !full then run[c].stored + 1 else 1)
      && !(kind.App? && up && full)
  {
    RunFollows(run, events, p, i);
    RunKeepsInv(run, events, i);
    assert Enabled(run[i], events[i]);
    var x := run[i].procs[p];
    assert LocalOk(x) && CopyLocal(x, run[i].stored);
    var d :| 0 <= d < |run| && CheckedAt(events, p, d, i) && Fits(x, run[d].svc.Up?, run[d].stored);
    c := d;
    assert WRITE == WRITE[..2] + [Unlock];
  }

  /** Only the ai script ever asks for the service to stop, and only after it found the
      service up and the counter at the limit. */
  lemma OnlyAiStops(run: seq<World>, events: seq<Event>, p: nat, i: nat) returns (c: nat)
    requires IsRun(run, events) && i < |events| && events[i] == Client(p, RequestStop)
    ensures p < |run[i].procs| && run[i].procs[p].kind.Ai?
    ensures CheckedAt(events, p, c, i) && c < |run| && run[c].svc.Up? && run[c].stored >= CLIENT_LIMIT
    ensures Acts(events, p, i + 1) == OPENING + [LockExclusive, RequestStop]
    ensures run[i + 1].job == StopJob
  {
    RunFollows(run, events, p, i);
    assert Enabled(run[i], events[i]);
    var x := run[i].procs[p];
    var d :| 0 <= d < |run| && CheckedAt(events, p, d, i) && Fits(x, run[d].svc.Up?, run[d].stored);
    c := d;
    assert run[i + 1] == Next(run[i], events[i]);
  }

  /** Only the app refuses, and only after it found the service up and the counter at the
      limit; from there it can do nothing but raise. */
  lemma OnlyAppRefuses(run: seq<World>, events: seq<Event>, p: nat, i: nat) returns (c: nat)
    requires IsRun(run, events) && i < |run| && p < |run[i].procs| && run[i].procs[p].pc.Refused?
    ensures run[i].procs[p].kind.App?
    ensures i <= |events| && CheckedAt(events, p, c, i) && c < |run| && run[c].svc.Up? && run[c].stored >= CLIENT_LIMIT
    ensures forall act :: CanAct(run[i], p, act) ==> act.Fail? || act.Interrupt?
  {
    RunFollows(run, events, p, i);
    var x := run[i].procs[p];
    var d :| 0 <= d < |run| && CheckedAt(events, p, d, i) && Fits(x, run[d].svc.Up?, run[d].stored);
    c := d;
  }

  lemma AiStopsNext(w: World, p: nat)
    requires p < |w.procs| && w.procs[p].pc.WantExclusive? && w.procs[p].active
    ensures forall act :: CanAct(w, p, act) ==> act.LockExclusive? || act.Fail? || act.Interrupt?
    ensures var w' := Acted(w, p, LockExclusive);
      CanAct(w', p, RequestStop) && forall act :: CanAct(w', p, act) ==> act.RequestStop? || act.Fail? || act.Interrupt?
  {
  }

  /** What each script does when it finds the service up and the counter at the limit: the
      ai client can only take the users lock exclusively and then ask for the stop, the app
      can only raise. */
  lemma AtTheLimit(run: seq<World>, events: seq<Event>, p: nat, i: nat)
    requires IsRun(run, events) && i < |events| && events[i] == Client(p, CheckActive)
    requires run[i].svc.Up? && run[i].stored >= CLIENT_LIMIT
    ensures p < |run[i].procs| == |run[i + 1].procs|
    ensures var w, kind := run[i + 1], run[i].procs[p].kind;
      if kind.App? then forall act :: CanAct(w, p, act) ==> act.Fail? || act.Interrupt?
      else
        && (forall act :: CanAct(w, p, act) ==> act.LockExclusive? || act.Fail? || act.Interrupt?)
        && var w' := Acted(w, p, LockExclusive);
          && CanAct(w', p, RequestStop)
          && forall act :: CanAct(w', p, act) ==> act.RequestStop? || act.Fail? || act.Interrupt?
  {
    RunKeepsInv(run, events, i);
    RunFollows(run, events, p, i);
    assert Enabled(run[i], events[i]) && run[i + 1] == Next(run[i], events[i]);
    assert LocalOk(run[i].procs[p]) && CopyLocal(run[i].procs[p], run[i].stored);
    assert run[i + 1].procs[p] == AfterAct(run[i], run[i].procs[p], CheckActive);
    hide Inv, Follows, IsRun, Acted;
    if !run[i].procs[p].kind.App? {
      AiStopsNext(run[i + 1], p);
    }
  }
}
