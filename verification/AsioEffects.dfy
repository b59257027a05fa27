/**
 * What single steps of the coroutine pools do, with every condition and every field written
 * out, and what follows for whole runs.
 */
module AsioEffects {
  import opened Common
  import opened Resources
  import opened AsioPoolSystem

  /** The handle of a granted resource is new and bound; handles, deletions and timers stay otherwise. */
  ghost predicate Hands(s: State, t: State, r: Resource) {
    && t.world.handles == s.world.handles[s.world.nextHandle := Handle(r, true)]
    && t.world.freed == s.world.freed && t.world.timers == s.world.timers && t.waiters == s.waiters
  }

  /** The front of the idle queue is granted as it is; its handle is not registered. */
  ghost predicate GrantsFront(s: State, t: State) {
    && s.idle != [] && Hands(s, t, s.idle[0]) && t.closers == s.closers
    && t.idle == s.idle[1..] && t.count == s.count && t.idleCount == s.idleCount - 1
  }

  /** The front of the idle queue is deleted. */
  ghost predicate DeletesFront(s: State, t: State) {
    && s.idle != [] && t.world == s.world.(freed := s.world.freed + [s.idle[0]])
    && t == s.(idle := s.idle[1..], count := s.count - 1, idleCount := s.idleCount - 1, world := t.world)
  }

  /** A resource is built from the current parameters, and its handle is registered. */
  ghost predicate GrantsNew(s: State, t: State) {
    && Hands(s, t, Resource(s.world.nextResource, s.param, if s.versioned then s.version else 0))
    && t.closers == s.closers + {s.world.nextHandle}
    && t.idle == s.idle && t.count == s.count + 1 && t.idleCount == s.idleCount
  }

  /** The coroutine joins the queue of waiters with a timer of its own. */
  ghost predicate Waits(s: State, t: State) {
    t == s.(waiters := s.waiters + [s.world.nextTimer],
            world := s.world.(timers := s.world.timers[s.world.nextTimer := Pending],
                              nextTimer := s.world.nextTimer + 1))
  }

  /** get without an idle resource: it waits at the maximum, else it builds a resource. */
  ghost predicate BuildsOrWaits(s: State, built: bool, t: State, o: Outcome) {
    if s.maxCount > 0 && s.count >= s.maxCount then o == Suspended(s.world.nextTimer) && Waits(s, t)
    else if !built then o == CreateFailed && t == s
    else o == Granted(s.world.nextHandle) && GrantsNew(s, t)
  }

  /** get: the front if it is of the current version; one that is not is deleted first. */
  lemma GetGrants(s: State, built: bool)
    requires s.alive
    ensures var t, o := Apply(s, Get(built)), OutcomeOf(s, Get(built));
            if s.idle == [] then BuildsOrWaits(s, built, t, o)
            else if !s.versioned || s.idle[0].version == s.version then
              o == Granted(s.world.nextHandle) && GrantsFront(s, t)
            else exists d :: DeletesFront(s, d) && BuildsOrWaits(d, built, t, o)
  {
    if s.idle != [] && s.versioned && s.idle[0].version != s.version {
      assert DeletesFront(s, Pop(s));
    }
  }

  /** A resumed coroutine takes its timer off the queue of waiters and changes nothing else by that. */
  lemma LeaveRemovesTimer(s: State, timer: nat)
    requires FifoWaiters(s) && timer in s.world.timers
    ensures var left := Leave(s, timer);
            && left == s.(waiters := left.waiters, world := s.world.(timers := s.world.timers - {timer}))
            && forall w :: w in left.waiters <==> w in s.waiters && w != timer
  {
    LeaveKeepsFifo(s, timer);
  }

  /** Then it takes the front or throws if it was woken, and throws if its wait ran out. */
  lemma ResumeGrants(s: State, timer: nat)
    requires Enabled(s, Resume(timer))
    ensures var left, t, o := Leave(s, timer), Apply(s, Resume(timer)), OutcomeOf(s, Resume(timer));
            if s.world.timers[timer] == Expired then o == TimedOut && t == left
            else if s.idle == [] then o == NothingAfterWakeup && t == left
            else if !s.versioned || s.idle[0].version == s.version then
              o == Granted(s.world.nextHandle) && GrantsFront(left, t)
            else o == VersionMismatch && DeletesFront(left, t)
  {
  }

  /** The first waiter, if any, leaves the queue, and its timer is cancelled if it is still pending. */
  ghost predicate Wakes(s: State, waiters: seq<nat>, timers: map<nat, Timer>) {
    if s.waiters == [] then waiters == [] && timers == s.world.timers
    else
      && waiters == s.waiters[1..]
      && timers == if s.waiters[0] in s.world.timers && s.world.timers[s.waiters[0]] == Pending
                   then s.world.timers[s.waiters[0] := Cancelled] else s.world.timers
  }

  /**
   * A returned resource is kept if and only if it is not of an older version and the queue
   * takes it, and it is deleted otherwise. The first waiter is woken unless the version differs.
   */
  lemma ReturnKeepsIff(s: State, h: nat, pushed: bool)
    requires h in s.world.handles && s.world.handles[h].bound
    ensures var t, r := ApplyRelease(s, h, pushed), s.world.handles[h].resource;
            && t.world.handles == s.world.handles - {h} && t.closers == s.closers - {h}
            && (t.idle == s.idle + [r] && t.world.freed == s.world.freed
                && t.count == s.count && t.idleCount == s.idleCount + 1
                <==> pushed && (!s.versioned || r.version == s.version))
            && (t.idle == s.idle && t.world.freed == s.world.freed + [r]
                && t.count == s.count - 1 && t.idleCount == s.idleCount
                <==> !pushed || (s.versioned && r.version != s.version))
            && if s.versioned && r.version != s.version
               then t.waiters == s.waiters && t.world.timers == s.world.timers
               else Wakes(s, t.waiters, t.world.timers)
  {
    var r := s.world.handles[h].resource;
    assert |s.idle + [r]| != |s.idle| && |s.world.freed + [r]| != |s.world.freed|;
  }

  /** Outside the pool a resource is deleted by its last handle. */
  lemma UnboundReleaseFrees(s: State, h: nat, pushed: bool)
    requires h in s.world.handles && !s.world.handles[h].bound
    ensures ApplyRelease(s, h, pushed)
         == s.(world := s.world.(handles := s.world.handles - {h},
                                 freed := s.world.freed + [s.world.handles[h].resource]))
  {
  }

  /** A flush frees every idle resource, in order, and nothing else. */
  ghost predicate Flushes(s: State, t: State) {
    && t.idle == [] && t.world == s.world.(freed := s.world.freed + s.idle)
    && t.count == s.count - |s.idle| && t.idleCount == s.idleCount - |s.idle|
    && t.waiters == s.waiters && t.closers == s.closers
  }

  /** setParam: an error for another type, nothing for the same value, else the new value in a new version. */
  lemma SetParamChanges(s: State, name: string, value: Value)
    requires Enabled(s, SetParam(name, value))
    ensures var t, o := Apply(s, SetParam(name, value)), OutcomeOf(s, SetParam(name, value));
            if name in s.param && !SameType(s.param[name], value) then o == ParamMismatch && t == s
            else if name in s.param && s.param[name] == value then o == Done && t == s
            else
              && o == Done && Flushes(s, t) && t.version == s.version + 1
              && name in t.param && t.param[name] == value && t.param.Keys == s.param.Keys + {name}
              && forall other :: other in s.param && other != name ==> t.param[other] == s.param[other]
  {
    UpdatedStores(s.param, name, value);
  }

  lemma SetParameterChanges(s: State, param: Param)
    requires Enabled(s, SetParameter(param))
    ensures var t := Apply(s, SetParameter(param)); Flushes(s, t) && t.version == s.version + 1 && t.param == param
  {
  }

  // ----- Over runs -----

  /**
   * In any run get is served at once if and only if the front of the idle queue is of the
   * current version, or a resource can be built and there is room for it; a front of an
   * older version makes room for one.
   */
  lemma GetSucceedsIff(states: seq<State>, steps: seq<Step>, n: nat)
    requires IsRun(states, steps) && n < |steps| && steps[n].Get?
    ensures var s := states[n];
            var current := s.idle != [] && (!s.versioned || s.idle[0].version == s.version);
            OutcomeOf(s, steps[n]).Granted?
            <==> current || (steps[n].built && (s.maxCount == 0 || s.idle != [] || |s.world.handles| < s.maxCount))
  {
    PoolConservesResources(states, steps, n);
    assert steps[n] == Get(steps[n].built);
    ServedIff(states[n], steps[n].built);
  }

  lemma ServedIff(s: State, built: bool)
    requires Books(s) && s.alive
    ensures OutcomeOf(s, Get(built)).Granted?
            <==> || (s.idle != [] && (!s.versioned || s.idle[0].version == s.version))
                 || (built && (s.maxCount == 0 || s.idle != [] || |s.world.handles| < s.maxCount))
  {
  }
}
