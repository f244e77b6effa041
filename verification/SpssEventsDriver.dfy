/** The event tables of kernel/drivers/spss_utils.c, changed in place under event_lock. */
module SpssEventsDriver {
  import opened SpssEvents

  const SIGNALED: int := 0xAAAA
  const NOT_SIGNALED: int := 0xFFFF

  class Tables {
    const done: array<bool>
    const signaled: array<bool>

    predicate Sized() {
      done.Length == EVENTS && signaled.Length == EVENTS && done != signaled
    }

    /** Between critical sections each flag agrees with its completion. */
    ghost predicate Valid()
      reads done, signaled
    {
      Sized() && done[..] == signaled[..]
    }

    /** Both tables went through the same changes. */
    twostate predicate Went(ops: seq<Op>)
      requires Sized()
      reads done, signaled
    {
      && done[..] == Applied(old(done[..]), ops)
      && signaled[..] == Applied(old(signaled[..]), ops)
    }

    constructor ()
      ensures Valid() && fresh(done) && fresh(signaled)
      ensures done[..] == signaled[..] == seq(EVENTS, _ => false)
    {
      done := new bool[EVENTS](_ => false);
      signaled := new bool[EVENTS](_ => false);
    }

    method Change(e: Event, raises: bool)
      requires Valid()
      modifies done, signaled
      ensures Valid()
      ensures done[..] == old(done[..])[e := raises]
      ensures signaled[..] == old(signaled[..])[e := raises]
    {
      done[e] := raises;
      signaled[e] := raises;
    }

    method OnStart()
      requires Valid()
      modifies done, signaled
      ensures Valid() && Went(STARTED)
      ensures done[..] == old(done[..])[7 := true][6 := false]
    {
      PairsKeepOne(done[..]);
      PairsKeepOne(signaled[..]);
      Change(POWER_UP, true);
      Change(POWER_DOWN, false);
    }

    method OnUnprepare()
      requires Valid()
      modifies done, signaled
      ensures Valid() && Went(UNPREPARED)
      ensures done[..] == old(done[..])[6 := true][7 := false]
    {
      PairsKeepOne(done[..]);
      PairsKeepOne(signaled[..]);
      Change(POWER_DOWN, true);
      Change(POWER_UP, false);
    }

    method OnStop()
      requires Valid()
      modifies done, signaled
      ensures Valid() && Went(Lowered(0))
      ensures forall e: Event :: !done[e] && !signaled[e]
    {
      ghost var d, f := done[..], signaled[..];
      LoweredClears(d, 0);
      LoweredClears(f, 0);
      var i := 0;
      while i < EVENTS
        invariant i <= EVENTS && Valid()
        invariant Applied(d, Lowered(0)) == Applied(done[..], Lowered(i))
        invariant Applied(f, Lowered(0)) == Applied(signaled[..], Lowered(i))
      {
        LowerOne(done[..], i);
        LowerOne(signaled[..], i);
        Change(i, false);
        i := i + 1;
      }
      assert forall e: Event :: done[e] == done[..][e] && signaled[e] == signaled[..][e];
    }

    method SignalEvent(id: nat) returns (code: int)
      requires Valid()
      modifies done, signaled
      ensures code == if id < EVENTS && !old(signaled[..])[id] then 0 else EINVAL
      ensures Valid() && Went(if code == 0 then [Op(id, true)] else [])
      ensures done[..] == if code == 0 then old(done[..])[id := true] else old(done[..])
    {
      if id >= EVENTS || signaled[id] {
        return EINVAL;
      }
      SignalOne(done[..], id);
      SignalOne(signaled[..], id);
      Change(id, true);
      return 0;
    }

    /** The answer says exactly whether a wait for the event would return at once, although
        it is read from the other table. */
    method IsEventSignaled(id: nat) returns (code: int, status: int)
      requires Valid()
      ensures code == 0 <==> id < EVENTS
      ensures code == 0 ==> (status == SIGNALED <==> done[id]) && (status == NOT_SIGNALED <==> !done[id])
    {
      if id >= EVENTS {
        return EINVAL, 0;
      }
      assert signaled[id] == signaled[..][id] && done[id] == done[..][id];
      return 0, if signaled[id] then SIGNALED else NOT_SIGNALED;
    }
  }

  lemma LowerOne(f: Flags, i: Event)
    ensures Applied(f, Lowered(i)) == Applied(f[i := false], Lowered(i + 1))
  {
    assert Lowered(i)[1..] == Lowered(i + 1);
  }

  lemma SignalOne(f: Flags, e: Event)
    ensures Applied(f, [Op(e, true)]) == f[e := true]
  {
  }
}
