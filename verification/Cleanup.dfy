/** The cleanup scheduler, with everything its environment may do between two of its steps: timers
    fire, passes finish, callbacks run, callers start, stop and ask for a pass, in any order. */
module Cleanup {
  import opened Wrappers

  /** What stop answers before it waits. */
  datatype Stop = Stop(cancelled: bool, inFlight: Option<nat>)

  /** What may happen: a caller starts, stops or asks for a pass, a timer fires, a pass finishes, its
      callback runs, a tick goes on. */
  datatype Move =
    | Starts | Stops | Runs | Ticks(handle: nat) | Finishes(pass: nat) | Clears(pass: nat) | Continues(pass: nat)

  /** How a scheduler stood when a pass began. */
  datatype Beginning = Beginning(stopped: bool, busy: bool)

  class Scheduler {
    var stopped: bool
    var timer: Option<nat>
    var currentRun: Option<nat>

    /** The environment: timers that may still fire; passes at work; passes whose completion
        callback has not run; and, per pass, how many ticks will reschedule when it is done. */
    var armed: set<nat>
    var atWork: set<nat>
    var uncleared: set<nat>
    var waiting: map<nat, nat>
    var handles: nat
    var passes: nat

    constructor ()
      ensures Valid() && stopped && passes == 0
    {
      stopped, timer, currentRun := true, None, None;
      armed, atWork, uncleared, waiting, handles, passes := {}, {}, {}, map[], 0, 0;
    }

    /** At most one tick timer and one pass; a stopped scheduler has no timer; a started one has a
        timer, or a tick that will set one. */
    ghost predicate Valid()
      reads this
    {
      && armed == (if timer.Some? then {timer.value} else {})
      && PassesOk()
      && (stopped ==> timer.None?)
      && (!stopped ==> timer.Some? || waiting != map[])
      && (forall h | h in armed :: h < handles)
      && (forall r | r in waiting :: r < passes && waiting[r] > 0)
    }

    ghost predicate PassesOk()
      reads this
    {
      && uncleared == (if currentRun.Some? then {currentRun.value} else {})
      && atWork <= uncleared
      && forall r | r in uncleared :: r < passes
    }

    /** What no step may do: start a pass while stopped, or beside another. */
    twostate predicate Careful()
      reads this
    {
      && old(passes) <= passes <= old(passes) + 1
      && (passes > old(passes) ==> !old(stopped) && old(currentRun).None? && old(atWork) == {})
    }

    /** execute: the pass in progress, or a new one. */
    method Execute() returns (r: nat)
      requires PassesOk() && !stopped
      modifies this`currentRun, this`atWork, this`uncleared, this`passes
      ensures PassesOk() && currentRun == Some(r) && r < passes && uncleared == {r} && atWork <= {r}
      ensures old(currentRun).Some? ==> r == old(currentRun).value && passes == old(passes) && atWork == old(atWork)
      ensures old(currentRun).None? ==> r == old(passes) && passes == r + 1 && atWork == {r}
    {
      if currentRun.Some? { return currentRun.value; }
      r := passes;
      currentRun, atWork, uncleared, passes := Some(r), {r}, {r}, passes + 1;
    }

    /** How many ticks will go on when pass r is done. */
    function Waits(r: nat): nat
      reads this`waiting
    {
      if r in waiting then waiting[r] else 0
    }

    /** scheduleNext. */
    method ScheduleNext()
      requires armed == (if timer.Some? then {timer.value} else {})
      modifies this`timer, this`armed, this`handles
      ensures stopped || old(timer).Some? ==> timer == old(timer) && armed == old(armed) && handles == old(handles)
      ensures !stopped && old(timer).None? ==>
                timer == Some(old(handles)) && armed == {old(handles)} && handles == old(handles) + 1
    {
      if stopped || timer.Some? { return; }
      timer, armed, handles := Some(handles), {handles}, handles + 1;
    }

    method Start()
      requires Valid()
      modifies this
      ensures Valid() && !stopped && Careful()
      ensures passes == old(passes) && currentRun == old(currentRun) && atWork == old(atWork)
      ensures old(stopped) ==> timer.Some?
      ensures !old(stopped) ==> timer == old(timer) && armed == old(armed)
      ensures waiting == old(waiting) && uncleared == old(uncleared)
    {
      if !stopped { return; }
      stopped := false;
      ScheduleNext();
    }

    /** runNow: joins a pass in progress; refused while stopped. */
    method RunNow() returns (r: Option<nat>)
      requires Valid()
      modifies this`currentRun, this`atWork, this`uncleared, this`passes
      ensures Valid() && Careful()
      ensures r.None? <==> stopped
      ensures r.Some? ==> currentRun == r && (old(currentRun).Some? ==> r == old(currentRun))
      ensures r.Some? && old(currentRun).None? ==> passes == old(passes) + 1 && atWork == {old(passes)}
      ensures r.None? || old(currentRun).Some? ==>
                passes == old(passes) && currentRun == old(currentRun) && atWork == old(atWork)
    {
      if stopped { return None; }
      var pass := Execute();
      return Some(pass);
    }

    /** stop, up to the wait. */
    method StopNow() returns (r: Stop)
      requires Valid()
      modifies this`stopped, this`timer, this`armed
      ensures Valid() && stopped && armed == {} && Careful()
      ensures r == Stop(old(timer).Some?, currentRun)
    {
      var cancelled := timer.Some?;
      stopped := true;
      if timer.Some? { armed, timer := armed - {timer.value}, None; }
      return Stop(cancelled, currentRun);
    }

    /** The tick timer fires: onTick. */
    method Tick(h: nat)
      requires Valid() && h in armed
      modifies this
      ensures Valid() && Careful() && stopped == old(stopped)
      ensures timer.None? && !stopped && currentRun.Some?
      ensures forall r: nat :: Waits(r) == old(Waits(r)) + (if currentRun == Some(r) then 1 else 0)
      ensures if old(currentRun).Some? then currentRun == old(currentRun) && passes == old(passes) && atWork == old(atWork)
              else passes == old(passes) + 1 && atWork == {old(passes)}
    {
      armed, timer := armed - {h}, None;
      var r := Execute();
      waiting := waiting[r := (if r in waiting then waiting[r] else 0) + 1];
      assert r in waiting;
    }

    /** A pass finishes, well or badly. */
    method Finish(r: nat)
      requires Valid() && r in atWork
      modifies this`atWork
      ensures Valid() && atWork == {} && Careful()
    {
      atWork := atWork - {r};
    }

    /** The completion callback of a finished pass. */
    method Clear(r: nat)
      requires Valid() && r in uncleared && r !in atWork
      modifies this`currentRun, this`uncleared
      ensures Valid() && currentRun.None? && Careful()
    {
      if currentRun == Some(r) { currentRun := None; }
      uncleared := uncleared - {r};
    }

    /** A tick's continuation, after its pass is done: schedule the next. */
    method Continue(r: nat)
      requires Valid() && r in waiting && r !in uncleared
      modifies this`waiting, this`timer, this`armed, this`handles
      ensures Valid() && Careful()
      ensures !stopped ==> timer.Some?
      ensures old(timer).Some? ==> timer == old(timer)
      ensures Waits(r) == old(Waits(r)) - 1 && forall x: nat | x != r :: Waits(x) == old(Waits(x))
    {
      waiting := if waiting[r] == 1 then waiting - {r} else waiting[r := waiting[r] - 1];
      ScheduleNext();
    }

    /** A move that can be made is made. */
    method Step(m: Move)
      requires Valid()
      modifies this
      ensures Valid() && Careful()
      ensures match m
              case Starts => !stopped
              case Stops => stopped
              case Runs => old(stopped) || currentRun.Some?
              case Ticks(h) => h in old(armed) ==> h !in armed && currentRun.Some?
              case Finishes(r) => r !in atWork
              case Clears(r) => r in old(uncleared - atWork) ==> r !in uncleared
              case Continues(r) => r in old(waiting) && r !in old(uncleared) ==> Waits(r) < old(Waits(r))
    {
      match m {
        case Starts => Start();
        case Stops => var _ := StopNow();
        case Runs => var _ := RunNow();
        case Ticks(h) => if h in armed { Tick(h); }
        case Finishes(r) => if r in atWork { Finish(r); }
        case Clears(r) => if r in uncleared && r !in atWork { Clear(r); }
        case Continues(r) => if r in waiting && r !in uncleared { Continue(r); }
      }
    }

    /** Any moves in any order. begun tells of every pass begun on the way how the scheduler stood just
        before: none was begun while it was stopped, and none beside another. */
    method Anything(moves: seq<Move>) returns (ghost begun: seq<Beginning>)
      requires Valid()
      modifies this
      ensures Valid() && passes == old(passes) + |begun|
      ensures forall b | b in begun :: !b.stopped && !b.busy
    {
      begun := [];
      for n := 0 to |moves|
        invariant Valid() && passes == old(passes) + |begun|
        invariant forall b | b in begun :: !b.stopped && !b.busy
      {
        ghost var before, was := Beginning(stopped, currentRun.Some? || atWork != {}), passes;
        Step(moves[n]);
        if passes > was { begun := begun + [before]; }
      }
    }

    /** A started scheduler never falls silent: without its callers doing anything, a timer is due,
        or a pass is at work, or a finished pass's callback or a tick's continuation is due. */
    lemma NeverSilent()
      requires Valid() && !stopped
      ensures || armed != {} || atWork != {}
              || (exists r :: r in uncleared && r !in atWork) || (exists r :: r in waiting && r !in uncleared)
    {
      if timer.None? {
        assert waiting.Keys != {};
        var r :| r in waiting.Keys;
        assert r in waiting;
      }
    }
  }
}
