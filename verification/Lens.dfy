/**
 The focus lens of kernel/drivers/dw9808_vcm.c: the ramps that park the lens at suspend and
 bring it back at resume.
 */
module Lens {

  const STEP: nat := 16
  const MAX_POSITION: nat := 1023

  type Position = p: nat | p <= MAX_POSITION

  // ------------------------------------------------------------------ ramps

  /** The k-th position the suspend ramp writes. */
  function DownTarget(p: Position, k: nat): int { p - p % STEP - STEP * k }

  /** The k-th position the resume ramp writes. */
  function UpTarget(p: Position, k: nat): int { p % STEP + STEP * k }

  function Writes(p: Position): nat { p / STEP + 1 }

  /** Where the lens is after the first k writes of the suspend ramp, when write i worked
      exactly if answers[i] is 0. */
  function At(start: Position, p: Position, answers: seq<int>, k: nat): int
    requires k <= |answers|
  {
    if k == 0 then start
    else if answers[k - 1] == 0 then DownTarget(p, k - 1)
    else At(start, p, answers, k - 1)
  }

  function Distance(a: int, b: int): nat { if a < b then b - a else a - b }

  predicate ShortMove(start: Position, p: Position, answers: seq<int>, k: nat)
    requires k < |answers|
  {
    Distance(At(start, p, answers, k), At(start, p, answers, k + 1)) <= STEP
  }

  /** No single move of the lens is longer than a step. */
  ghost predicate Smooth(start: Position, p: Position, answers: seq<int>) {
    forall k: nat :: k < |answers| ==> ShortMove(start, p, answers, k)
  }

  predicate NoneWorked(answers: seq<int>, k: nat)
    requires k <= |answers|
  {
    forall j :: 0 <= j < k ==> answers[j] != 0
  }

  /** Write k, if it works, follows one that worked, or it is the first that does and its
      target is within a step of where the lens has been waiting. */
  predicate Steady(start: Position, p: Position, answers: seq<int>, k: nat)
    requires k < |answers|
  {
    answers[k] == 0 ==>
      || (k > 0 && answers[k - 1] == 0)
      || (NoneWorked(answers, k) && Distance(start, DownTarget(p, k)) <= STEP)
  }

  lemma {:induction false} WaitsAtStart(start: Position, p: Position, answers: seq<int>, k: nat)
    requires k <= |answers| && NoneWorked(answers, k)
    ensures At(start, p, answers, k) == start
  {
    if k > 0 {
      WaitsAtStart(start, p, answers, k - 1);
    }
  }

  /** Once a write has worked the lens is where the ramp was then, or further behind. */
  lemma {:induction false} StaysBehind(start: Position, p: Position, answers: seq<int>, k: nat)
    requires k <= |answers| && !NoneWorked(answers, k)
    ensures At(start, p, answers, k) >= DownTarget(p, k - 1)
    ensures answers[k - 1] != 0 ==> At(start, p, answers, k) >= DownTarget(p, k - 1) + STEP
  {
    if answers[k - 1] != 0 {
      StaysBehind(start, p, answers, k - 1);
    }
  }

  lemma MoveIsShortIff(start: Position, p: Position, answers: seq<int>, k: nat)
    requires k < |answers|
    ensures ShortMove(start, p, answers, k) <==> Steady(start, p, answers, k)
  {
    if NoneWorked(answers, k) {
      WaitsAtStart(start, p, answers, k);
    } else {
      StaysBehind(start, p, answers, k);
    }
  }

  /** Wherever the lens starts, the suspend ramp is smooth exactly when every write that
      works is steady. */
  lemma RampDownSmoothIff(start: Position, p: Position, answers: seq<int>)
    ensures Smooth(start, p, answers) <==> forall k: nat :: k < |answers| ==> Steady(start, p, answers, k)
  {
    forall k: nat | k < |answers|
      ensures ShortMove(start, p, answers, k) <==> Steady(start, p, answers, k)
    {
      MoveIsShortIff(start, p, answers, k);
    }
    if Smooth(start, p, answers) {
      forall k: nat | k < |answers| ensures Steady(start, p, answers, k) {
        assert ShortMove(start, p, answers, k);
      }
    }
  }

  /** Without failures that asks one thing: that the lens is within a step of the ramp's
      first target, which holds whenever it is where the last request wanted it. */
  lemma FaultFreeRampSmoothIff(start: Position, p: Position, answers: seq<int>)
    requires |answers| == Writes(p) && forall k :: 0 <= k < |answers| ==> answers[k] == 0
    ensures Smooth(start, p, answers) <==> Distance(start, DownTarget(p, 0)) <= STEP
    ensures Smooth(p, p, answers)
  {
    RampDownSmoothIff(start, p, answers);
    RampDownSmoothIff(p, p, answers);
    assert Steady(start, p, answers, 0) <==> Distance(start, DownTarget(p, 0)) <= STEP;
  }

  /** It ends at 0 exactly when its last write worked, or none did and it started there. */
  lemma RampDownParksIff(start: Position, p: Position, answers: seq<int>)
    requires |answers| == Writes(p)
    ensures At(start, p, answers, |answers|) == 0
       <==> answers[|answers| - 1] == 0 || (NoneWorked(answers, |answers|) && start == 0)
  {
    if NoneWorked(answers, |answers|) {
      WaitsAtStart(start, p, answers, |answers|);
    } else {
      StaysBehind(start, p, answers, |answers|);
    }
  }

  /** Where a focus request leaves the lens: a failed or deferred one does not move it, but
      is remembered as the position to ramp down from. */
  function Focused(place: Position, val: Position, inUse: int, answer: int): Position {
    if inUse > 0 && answer == 0 then val else place
  }

  /** Such a request makes even a ramp without failures jump: the whole way down at once. */
  lemma LostRequestJumps()
    ensures var place := Focused(Focused(512, 1023, 1, 0), 0, 1, EIO);
      && |[0]| == Writes(0)
      && Distance(At(place, 0, [0], 0), At(place, 0, [0], 1)) == MAX_POSITION
      && !Smooth(place, 0, [0])
  {
    assert !ShortMove(MAX_POSITION, 0, [0], 0);
  }

  /** The resume ramp starts within a step of 0, moves by exactly a step each time and ends
      at the requested position, so the source's upper clamp never changes a target. */
  lemma RampUpReaches(p: Position, k: nat)
    requires k < Writes(p)
    ensures UpTarget(p, 0) < STEP
    ensures 0 <= UpTarget(p, k) <= p
    ensures k + 1 < Writes(p) ==> UpTarget(p, k + 1) - UpTarget(p, k) == STEP
    ensures UpTarget(p, k) == p <==> k == Writes(p) - 1
  {
  }

  // ------------------------------------------------------------------ the driver

  function FirstError(answers: seq<int>, k: nat): int
    requires k <= |answers|
  {
    if k == 0 then 0
    else if FirstError(answers, k - 1) != 0 then FirstError(answers, k - 1)
    else answers[k - 1]
  }

  /** It is the earliest answer that is an error. */
  lemma {:induction false} FirstErrorIs(answers: seq<int>, k: nat)
    requires k <= |answers|
    ensures FirstError(answers, k) == 0 <==> forall i :: 0 <= i < k ==> answers[i] == 0
    ensures FirstError(answers, k) != 0 ==>
              exists i :: 0 <= i < k && answers[i] == FirstError(answers, k)
                          && forall j :: 0 <= j < i ==> answers[j] == 0
  {
    if k > 0 {
      FirstErrorIs(answers, k - 1);
    }
  }

  /** The suspend ramp starts at the last multiple of a step not above the request and goes
      down by a step each time to 0. */
  lemma RampDownTargets(p: Position, k: nat)
    requires k < Writes(p)
    ensures DownTarget(p, 0) <= p < DownTarget(p, 0) + 16 && DownTarget(p, 0) % 16 == 0
    ensures DownTarget(p, k) >= 0 && (k > 0 ==> DownTarget(p, k) == DownTarget(p, k - 1) - 16)
    ensures DownTarget(p, k) == 0 <==> k == Writes(p) - 1
  {
  }

  const EIO: int := -5

  /** position is the last requested focus, place where the lens is, rail the supply's
      enable count.  An answer of 0 means that write moved the lens. */
  class Actuator {
    var position: Position
    var place: Position
    var rail: int

    constructor ()
      ensures position == 512 && rail == 0
    {
      position, place, rail := 512, 0, 0;
    }

    /** dw9808_set_control: remembers the request even when the lens cannot follow yet. */
    method SetFocus(val: Position, inUse: int, answer: int) returns (code: int)
      modifies this
      ensures position == val && rail == old(rail)
      ensures place == Focused(old(place), val, inUse, answer)
      ensures code == if inUse > 0 then answer else inUse
    {
      position := val;
      if inUse <= 0 {
        return if inUse < 0 then inUse else 0;
      }
      code := MoveTo(val, answer);
    }

    method MoveTo(target: Position, answer: int) returns (code: int)
      modifies `place
      ensures code == answer && place == if answer == 0 then target else old(place)
    {
      if answer == 0 {
        place := target;
      }
      return answer;
    }

    /** Keeps ramping after an error; switches the supply off whatever happened. */
    method Suspend(answers: seq<int>, control: int) returns (code: int, ghost places: seq<Position>)
      requires |answers| == Writes(position)
      modifies this
      ensures position == old(position) && rail == old(rail) - 1
      ensures place == At(old(place), position, answers, |answers|)
      ensures |places| == |answers| + 1 && places[0] == old(place) && places[|answers|] == place
      ensures forall k :: 0 <= k < |answers| ==>
                places[k + 1] == if answers[k] == 0 then DownTarget(position, k) else places[k]
      ensures Smooth(old(place), position, answers)
         <==> forall k: nat :: k < |answers| ==> Steady(old(place), position, answers, k)
      ensures place == 0
         <==> answers[|answers| - 1] == 0 || (NoneWorked(answers, |answers|) && old(place) == 0)
      ensures code == var e := FirstError(answers, |answers|); if e == 0 && control != 0 then EIO else e
      ensures code == 0 <==> control == 0 && forall k :: 0 <= k < |answers| ==> answers[k] == 0
    {
      ghost var start := place;
      code := 0;
      var target: int := position - position % STEP;
      var k: nat := 0;
      places := [place];
      while target >= 0
        invariant |places| == k + 1 && k <= |answers| && target == DownTarget(position, k)
        invariant places[0] == start && places[k] == place
        invariant forall i :: 0 <= i < k ==>
                    places[i + 1] == if answers[i] == 0 then DownTarget(position, i) else places[i]
        invariant position == old(position) && rail == old(rail)
        invariant place == At(start, position, answers, k)
        invariant code == FirstError(answers, k)
        decreases target + STEP
      {
        var step := MoveTo(target, answers[k]);
        if step != 0 && code == 0 {
          code := step;
        }
        places := places + [place];
        target, k := target - STEP, k + 1;
      }
      FirstErrorIs(answers, |answers|);
      if control != 0 && code == 0 {
        code := EIO;
      }
      rail := rail - 1;
      RampDownSmoothIff(start, position, answers);
      RampDownParksIff(start, position, answers);
    }

    /** Succeeds only after writing the whole ramp, the lens then being at the requested
        position; a failure releases the supply. */
    method Resume(enable: int, init: int, answers: seq<int>) returns (code: int, ghost written: seq<int>)
      requires |answers| == Writes(position)
      modifies this
      ensures position == old(position)
      ensures code == 0 <==> enable == 0 && init == 0 && forall k :: 0 <= k < |answers| ==> answers[k] == 0
      ensures rail == if code == 0 then old(rail) + 1 else old(rail)
      ensures enable != 0 ==> code == enable && written == [] && place == old(place)
      ensures enable == 0 && init != 0 ==> code == init && written == [] && place == old(place)
      ensures code != 0 && enable == 0 && init == 0 ==>
                && 0 < |written| <= |answers| && code == answers[|written| - 1]
                && forall k :: 0 <= k < |written| - 1 ==> answers[k] == 0
      ensures code == 0 ==> place == position && |written| == Writes(position)
      ensures forall k :: 0 <= k < |written| ==> written[k] == UpTarget(position, k)
    {
      if enable != 0 {
        return enable, [];
      }
      rail := rail + 1;
      if init != 0 {
        rail := rail - 1;
        return init, [];
      }
      var target := position % STEP;
      var k: nat := 0;
      written := [];
      while target < position + STEP
        invariant |written| == k <= |answers| && target == UpTarget(position, k)
        invariant forall i :: 0 <= i < k ==> written[i] == UpTarget(position, i)
        invariant position == old(position) && rail == old(rail) + 1
        invariant forall i :: 0 <= i < k ==> answers[i] == 0
        invariant k > 0 ==> place == UpTarget(position, k - 1)
        decreases position + STEP - target
      {
        RampUpReaches(position, k);
        var aim := if target < position then target else position;
        code := MoveTo(aim, answers[k]);
        written := written + [aim];
        if code != 0 {
          rail := rail - 1;
          return;
        }
        target, k := target + STEP, k + 1;
      }
      RampUpReaches(position, k - 1);
      code := 0;
    }
  }
}
