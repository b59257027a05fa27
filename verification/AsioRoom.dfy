/**
 * Room in the coroutine pools: when a waiter stays in the queue although the pool could build
 * a resource for it.
 */
module AsioRoom {
  import opened Common
  import opened Resources
  import opened AsioPoolSystem
  import opened AsioWakeups

  /** Somebody waits for a wakeup while a new get would simply build a resource. */
  ghost predicate BesideRoom(s: State) {
    s.alive && HasRoom(s) && SomePending(s.world.timers)
  }

  /** The timers after a returned resource has woken its waiter, if it wakes one. */
  ghost function TimersAfter(s: State, h: nat): map<nat, Timer> {
    if Wakes(s, h) then s.world.timers[s.waiters[0] := Cancelled] else s.world.timers
  }

  /**
   * The steps that make room beside a waiter: a stale resource that is discarded by a get
   * that then fails, or by a woken waiter; a returned resource that is deleted; a flush.
   */
  ghost predicate MakesRoom(s: State, step: Step) {
    match step
    case Get(built) => s.idle != [] && Stale(s, s.idle[0]) && !built && SomePending(s.world.timers)
    case Resume(t) =>
      && t in s.world.timers && s.world.timers[t] == Cancelled
      && s.idle != [] && Stale(s, s.idle[0]) && SomePending(s.world.timers)
    case Release(h, pushed) =>
      && h in s.world.handles && s.world.handles[h].bound && !Keeps(s, h, pushed)
      && SomePending(TimersAfter(s, h))
    case ReleaseIdle => s.idle != [] && SomePending(s.world.timers)
    case SetParam(name, value) => s.idle != [] && Changes(s, name, value) && SomePending(s.world.timers)
    case SetParameter(_) => s.idle != [] && SomePending(s.world.timers)
    case _ => false
  }

  /** Whether there is room for a waiter depends on the counter and the timers only. */
  lemma SameRoom(s: State, t: State)
    requires !BesideRoom(s) && t.alive == s.alive && t.maxCount == s.maxCount && t.count >= s.count
    requires SomePending(t.world.timers) ==> SomePending(s.world.timers)
    ensures !BesideRoom(t)
  {
  }

  lemma LessCount(s: State, t: State)
    requires Books(s) && s.alive && !BesideRoom(s) && t.alive && t.maxCount == s.maxCount && t.count < s.count
    requires SomePending(t.world.timers) ==> SomePending(s.world.timers)
    ensures BesideRoom(t) <==> SomePending(t.world.timers)
  {
  }

  lemma CreateOrSuspendMakesNoRoom(s: State, built: bool)
    requires !BesideRoom(s)
    ensures !BesideRoom(CreateOrSuspend(s, built))
  {
    if HasRoom(s) {
      SameRoom(s, CreateOrSuspend(s, built));
    }
  }

  lemma PopCounts(s: State)
    requires s.idle != []
    ensures var t := Pop(s);
            && t.count == s.count - (if Stale(s, s.idle[0]) then 1 else 0)
            && t.alive == s.alive && t.maxCount == s.maxCount && t.world.timers == s.world.timers
  {
  }

  lemma GetMakesRoomIff(s: State, built: bool)
    requires Books(s) && s.alive && !BesideRoom(s)
    ensures BesideRoom(ApplyGet(s, built)) <==> MakesRoom(s, Get(built))
  {
    if s.idle == [] {
      CreateOrSuspendMakesNoRoom(s, built);
    } else {
      PopCounts(s);
      if !Stale(s, s.idle[0]) {
        SameRoom(s, Pop(s));
      } else {
        assert HasRoom(Pop(s));
        StaleGetMakesRoomIff(s, built);
      }
    }
  }

  lemma StaleGetMakesRoomIff(s: State, built: bool)
    requires Books(s) && s.alive && !BesideRoom(s) && s.idle != [] && Stale(s, s.idle[0]) && HasRoom(Pop(s))
    ensures BesideRoom(ApplyGet(s, built)) <==> !built && SomePending(s.world.timers)
  {
    PopCounts(s);
    if built {
      var t := Create(Pop(s));
      assert t.count == s.count && t.world.timers == s.world.timers && t.alive && t.maxCount == s.maxCount;
      SameRoom(s, t);
    } else {
      LessCount(s, Pop(s));
    }
  }

  lemma ResumeMakesRoomIff(s: State, t: nat)
    requires Books(s) && s.alive && !BesideRoom(s) && t in s.world.timers && s.world.timers[t] != Pending
    ensures BesideRoom(ApplyResume(s, t)) <==> MakesRoom(s, Resume(t))
  {
    PendingElsewhere(s.world.timers, t, Expired);
    PendingStays(s.world.timers, t);
    var left := Leave(s, t);
    if s.world.timers[t] == Cancelled && s.idle != [] {
      PopCounts(left);
      if Stale(s, s.idle[0]) {
        LessCount(s, Pop(left));
      } else {
        SameRoom(s, Pop(left));
      }
    } else {
      SameRoom(s, left);
    }
  }

  lemma PendingStays(timers: map<nat, Timer>, t: nat)
    requires t in timers && timers[t] != Pending
    ensures SomePending(timers) ==> SomePending(timers - {t})
  {
    if SomePending(timers) {
      var u :| u in timers && timers[u] == Pending;
      assert (timers - {t})[u] == Pending;
    }
  }

  lemma ReleaseCounts(s: State, h: nat, pushed: bool)
    requires h in s.world.handles
    ensures var t := ApplyRelease(s, h, pushed);
            && t.alive == s.alive && t.maxCount == s.maxCount
            && t.count == s.count - (if s.world.handles[h].bound && !Keeps(s, h, pushed) then 1 else 0)
  {
  }

  lemma ReleaseMakesRoomIff(s: State, h: nat, pushed: bool)
    requires Books(s) && FifoWaiters(s) && s.alive && !BesideRoom(s) && h in s.world.handles
    ensures BesideRoom(ApplyRelease(s, h, pushed)) <==> MakesRoom(s, Release(h, pushed))
  {
    ReleaseTimers(s, h, pushed);
    ReleaseCounts(s, h, pushed);
    var t := ApplyRelease(s, h, pushed);
    if Wakes(s, h) {
      PendingElsewhere(s.world.timers, s.waiters[0], Cancelled);
    }
    if s.world.handles[h].bound && !Keeps(s, h, pushed) {
      LessCount(s, t);
    } else {
      SameRoom(s, t);
    }
  }

  lemma FlushMakesRoomIff(s: State)
    requires Books(s) && s.alive && !BesideRoom(s)
    ensures BesideRoom(Flush(s)) <==> s.idle != [] && SomePending(s.world.timers)
  {
    if s.idle == [] {
      SameRoom(s, Flush(s));
    } else {
      LessCount(s, Flush(s));
    }
  }

  lemma ParamMakesRoomIff(s: State, param: Param)
    requires Books(s) && s.alive && !BesideRoom(s)
    ensures BesideRoom(Flush(s.(param := param, version := s.version + 1)))
            <==> s.idle != [] && SomePending(s.world.timers)
  {
    FlushMakesRoomIff(s.(param := param, version := s.version + 1));
  }

  lemma ExpireMakesNoRoom(s: State, t: nat)
    requires !BesideRoom(s)
    ensures !BesideRoom(s.(world := s.world.(timers := s.world.timers[t := Expired])))
  {
    PendingElsewhere(s.world.timers, t, Expired);
  }

  lemma StepMakesRoomIff(s: State, step: Step)
    requires Books(s) && FifoWaiters(s) && !BesideRoom(s) && Enabled(s, step)
    ensures BesideRoom(Apply(s, step)) <==> MakesRoom(s, step)
  {
    match step
    case Get(built) => GetMakesRoomIff(s, built);
    case Expire(t) => ExpireMakesNoRoom(s, t);
    case Resume(t) => ResumeMakesRoomIff(s, t);
    case Release(h, pushed) =>
      if s.alive {
        ReleaseMakesRoomIff(s, h, pushed);
      }
    case ReleaseIdle => FlushMakesRoomIff(s);
    case SetParam(name, value) =>
      if Changes(s, name, value) {
        ParamMakesRoomIff(s, Updated(s.param, name, value).value);
      }
    case SetParameter(param) => ParamMakesRoomIff(s, param);
    case IncVersion =>
    case Destroy =>
  }

  lemma RunMakesRoomIff(states: seq<State>, steps: seq<Step>, n: nat)
    requires IsRun(states, steps) && n < |steps|
    ensures !BesideRoom(states[n]) ==> (BesideRoom(states[n + 1]) <==> MakesRoom(states[n], steps[n]))
  {
    WaitersStayInOrder(states, steps, n);
    PoolConservesResources(states, steps, n);
    var s, step := states[n], steps[n];
    if !BesideRoom(s) {
      StepMakesRoomIff(s, step);
    }
    assert states[n + 1] == Apply(s, step);
  }

  /**
   * In every run of either pool: nobody has waited beside room for a new resource up to some
   * state exactly when no step so far made room beside a waiter.
   */
  lemma {:induction false} NobodyWaitsBesideRoomIff(states: seq<State>, steps: seq<Step>, n: nat)
    requires IsRun(states, steps) && n < |states|
    ensures (forall k :: 0 <= k <= n ==> !BesideRoom(states[k]))
            <==> (forall i :: 0 <= i < n ==> !MakesRoom(states[i], steps[i]))
  {
    if n > 0 {
      NobodyWaitsBesideRoomIff(states, steps, n - 1);
      RunMakesRoomIff(states, steps, n - 1);
    }
  }

  /** A stale resource is returned and deleted, and the waiter is not told that there is room. */
  lemma WaiterMayStayBesideRoom(param: Param) returns (states: seq<State>, steps: seq<Step>)
    ensures IsRun(states, steps) && steps == [Get(true), Get(true), IncVersion, Release(0, true)]
    ensures BesideRoom(states[4]) && states[4].waiters == [0]
  {
    states, steps := [Initial(true, param, 1)], [];
    states, steps := Extend(states, steps, Get(true));
    states, steps := Extend(states, steps, Get(true));
    states, steps := Extend(states, steps, IncVersion);
    states, steps := Extend(states, steps, Release(0, true));
    assert states[4].world.timers[0] == Pending;
  }
}
