/**
 * What single steps of the thread pools do, with every condition and every field written
 * out, and what follows for whole runs.
 */
module PoolEffects {
  import opened Common
  import opened Resources
  import opened PoolSystem

  /** The handle of a granted resource is new and bound; all other handles stay. */
  ghost predicate Hands(s: State, t: State, r: Resource) {
    && t.world.handles == s.world.handles[s.world.nextHandle := Handle(r, true)]
    && t.closers == s.closers + {s.world.nextHandle}
    && t.world.freed == s.world.freed
  }

  /** The front of the idle queue is granted as it is. */
  ghost predicate GrantsFront(s: State, t: State, o: Outcome) {
    && s.idle != [] && o == Granted(s.world.nextHandle) && Hands(s, t, s.idle[0])
    && t.idle == s.idle[1..] && t.count == s.count
  }

  /** A resource is built from the current parameters. */
  ghost predicate GrantsNew(s: State, t: State, o: Outcome) {
    && o == Granted(s.world.nextHandle) && t.idle == s.idle && t.count == s.count + 1
    && Hands(s, t, Resource(s.world.nextResource, s.param, if s.versioned then s.version else 0))
  }

  /** get: the front, if there is one; else nothing at the maximum; else a new resource, if its constructor succeeds. */
  lemma GetGrants(s: State, built: bool)
    requires s.alive
    ensures var t, o := Apply(s, Get(built)), OutcomeOf(s, Get(built));
            if s.idle != [] then GrantsFront(s, t, o)
            else if s.maxPool > 0 && s.count >= s.maxPool then o == NoResource && t == s
            else if !built then o == CreateFailed && t == s
            else GrantsNew(s, t, o)
  {
  }

  /** getWaitFor differs at the maximum only: the thread waits, not yet notified. */
  lemma GetWaitForGrants(s: State, thread: nat, timed: bool, built: bool)
    requires Enabled(s, GetWaitFor(thread, timed, built))
    ensures var t, o := Apply(s, GetWaitFor(thread, timed, built)), OutcomeOf(s, GetWaitFor(thread, timed, built));
            if s.idle != [] then GrantsFront(s, t, o)
            else if s.maxPool > 0 && s.count >= s.maxPool then
              && o == Blocked
              && t == s.(world := s.world.(waiters := s.world.waiters[thread := Waiter(timed, false)]))
            else if !built then o == CreateFailed && t == s
            else GrantsNew(s, t, o)
  {
  }

  /** A waiting thread leaves with the front, or after its timeout with nothing; else it waits on. */
  lemma WakeGrants(s: State, thread: nat, timedOut: bool)
    requires Enabled(s, Wake(thread, timedOut))
    ensures var t, o := Apply(s, Wake(thread, timedOut)), OutcomeOf(s, Wake(thread, timedOut));
            var w := s.world.waiters[thread];
            if s.idle != [] then GrantsFront(s, t, o) && t.world.waiters == s.world.waiters - {thread}
            else if timedOut && w.timed then
              o == TimedOut && t == s.(world := s.world.(waiters := s.world.waiters - {thread}))
            else
              && o == Blocked
              && t == s.(world := s.world.(waiters := s.world.waiters[thread := w.(notified := false)]))
  {
  }

  /** The pool keeps a returned resource if and only if there is room for it and it is not of an older version. */
  lemma ReturnKeepsIff(s: State, h: nat)
    requires h in s.world.handles && s.world.handles[h].bound
    ensures var t, r := ApplyRelease(s, h), s.world.handles[h].resource;
            && t.world.handles == s.world.handles - {h} && t.closers == s.closers - {h}
            && (t.idle == s.idle + [r] && t.world.freed == s.world.freed && t.count == s.count
                <==> |s.idle| < s.maxIdle && (!s.versioned || r.version == s.version))
            && (t.idle == s.idle && t.world.freed == s.world.freed + [r] && t.count == s.count - 1
                <==> |s.idle| >= s.maxIdle || (s.versioned && r.version != s.version))
  {
    var t, r := ApplyRelease(s, h), s.world.handles[h].resource;
    assert |s.idle + [r]| != |s.idle| && |s.world.freed + [r]| != |s.world.freed|;
  }

  /** Outside the pool a resource is deleted by its last handle. */
  lemma UnboundReleaseFrees(s: State, h: nat)
    requires h in s.world.handles && !s.world.handles[h].bound
    ensures ApplyRelease(s, h)
         == s.(world := s.world.(handles := s.world.handles - {h},
                                 freed := s.world.freed + [s.world.handles[h].resource]))
  {
  }

  /** A flush frees every idle resource, in order, and nothing else. */
  ghost predicate Flushes(s: State, t: State) {
    && t.idle == [] && t.world.freed == s.world.freed + s.idle && t.count == s.count - |s.idle|
    && t.world.handles == s.world.handles && t.world.waiters == s.world.waiters
  }

  /** setParam: an error for another type, nothing for the same value, else the new value in a new version. */
  lemma SetParamChanges(s: State, name: string, value: Value)
    requires Enabled(s, SetParam(name, value))
    ensures var t, o := Apply(s, SetParam(name, value)), OutcomeOf(s, SetParam(name, value));
            if name in s.param && !SameType(s.param[name], value) then o == ParamMismatch && t == s
            else if name in s.param && s.param[name] == value then o == Done && t == s
            else
              && o == Done && Flushes(s, t) && t.version == s.version + 1
              && name in t.param && t.param[name] == value && t.param.Keys == s.param.Keys + {name}
              && forall other :: other in s.param && other != name ==> t.param[other] == s.param[other]
  {
    UpdatedStores(s.param, name, value);
  }

  lemma SetParameterChanges(s: State, param: Param)
    requires Enabled(s, SetParameter(param))
    ensures var t := Apply(s, SetParameter(param)); Flushes(s, t) && t.version == s.version + 1 && t.param == param
  {
  }

  // ----- Over runs -----

  /** A resource is deleted on its return only when it is of an older version or the idle queue is full. */
  lemma ReturnsDeleteOnlyIf(states: seq<State>, steps: seq<Step>, n: nat)
    requires IsRun(states, steps) && n < |steps| && steps[n].Release? && states[n].alive
    ensures var s, t := states[n], states[n + 1];
            var r := s.world.handles[steps[n].handle].resource;
            t.world.freed != s.world.freed
            <==> |s.idle| >= s.maxIdle || (s.versioned && r.version < s.version)
  {
    PoolConservesResources(states, steps, n);
    ParametersStayFresh(states, steps, n);
    ReturnKeepsIff(states[n], steps[n].handle);
    assert states[n + 1] == ApplyRelease(states[n], steps[n].handle);
    DeletedIff(states[n], states[n + 1], states[n].world.handles[steps[n].handle].resource);
  }

  lemma DeletedIff(s: State, t: State, r: Resource)
    requires t.world.freed == s.world.freed || t.world.freed == s.world.freed + [r]
    ensures t.world.freed != s.world.freed <==> t.world.freed == s.world.freed + [r]
  {
    assert |s.world.freed + [r]| != |s.world.freed|;
  }

  /** Without a maximum, or below it, get never comes back empty-handed when resources can be built. */
  lemma GetSucceedsIff(states: seq<State>, steps: seq<Step>, n: nat)
    requires IsRun(states, steps) && n < |steps| && steps[n].Get?
    ensures var s := states[n];
            OutcomeOf(s, steps[n]).Granted?
            <==> s.idle != [] || (steps[n].built && (s.maxPool == 0 || |s.world.handles| < s.maxPool))
  {
    PoolConservesResources(states, steps, n);
    GetGrants(states[n], steps[n].built);
  }
}
