/**
 * ResourcePool and ResourceVersionPool as a transition system: one step per section that
 * runs under the pool's mutex. The two classes differ in the flag versioned, which adds the
 * version check on return and the operations on parameters.
 *
 * A handle stands for a live shared pointer; its number is the address of its closer.
 */
module PoolSystem {
  import opened Common
  import opened Resources

  /** A thread blocked in getWaitFor; notified after a notify_all it has not yet acted on. */
  datatype Waiter = Waiter(timed: bool, notified: bool)

  /** Everything outside the pool object: handles, threads, and the log of deletions. */
  datatype World = World(
    handles: map<nat, Handle>,
    nextHandle: nat,
    nextResource: nat,
    freed: seq<Resource>,
    waiters: map<nat, Waiter>)

  datatype State = State(
    versioned: bool,
    alive: bool,
    maxPool: nat,
    maxIdle: nat,
    count: int,
    param: Param,
    version: int,
    idle: seq<Resource>,
    closers: set<nat>,
    world: World)

  datatype Step =
    | Get(built: bool)                                // built: the resource's constructor succeeds
    | GetWaitFor(thread: nat, timed: bool, built: bool)
    | Wake(thread: nat, timedOut: bool)
    | Release(handle: nat)
    | ReleaseIdle
    | SetMaxPool(n: nat)
    | SetMaxIdle(n: nat)
    | SetParam(name: string, value: Value)
    | SetParameter(param: Param)
    | IncVersion
    | Destroy

  datatype Outcome =
    | Granted(handle: nat)
    | NoResource
    | CreateFailed
    | TimedOut
    | Blocked
    | ParamMismatch
    | Done

  function Initial(versioned: bool, param: Param, maxPool: nat, maxIdle: nat): State {
    State(versioned, true, maxPool, maxIdle, 0, param, 0, [], {}, World(map[], 0, 0, [], map[]))
  }

  // ----- Steps -----

  predicate Full(s: State) {
    s.maxPool > 0 && s.count >= s.maxPool
  }

  /** Wraps r into a new handle whose closer is registered. */
  function Grant(s: State, r: Resource): State {
    var h := s.world.nextHandle;
    s.(closers := s.closers + {h},
       world := s.world.(handles := s.world.handles[h := Handle(r, true)], nextHandle := h + 1))
  }

  function Create(s: State): State {
    var r := Resource(s.world.nextResource, s.param, if s.versioned then s.version else 0);
    Grant(s.(count := s.count + 1, world := s.world.(nextResource := s.world.nextResource + 1)), r)
  }

  function TakeIdle(s: State): State
    requires s.idle != []
  {
    Grant(s.(idle := s.idle[1..]), s.idle[0])
  }

  function NotifyAll(waiters: map<nat, Waiter>): map<nat, Waiter> {
    map t | t in waiters :: waiters[t].(notified := true)
  }

  predicate Accepts(s: State, r: Resource) {
    (s.versioned ==> r.version == s.version) && |s.idle| < s.maxIdle
  }

  /** returnResource, without the erasure of the closer. */
  function TakeBack(s: State, r: Resource): State {
    if Accepts(s, r) then
      s.(idle := s.idle + [r], world := s.world.(waiters := NotifyAll(s.world.waiters)))
    else
      s.(count := s.count - 1, world := s.world.(freed := s.world.freed + [r]))
  }

  /** The last copy of a handle goes away and its closer runs. */
  function ApplyRelease(s: State, h: nat): State
    requires h in s.world.handles
  {
    var handle := s.world.handles[h];
    var gone := s.(world := s.world.(handles := s.world.handles - {h}));
    if handle.bound then
      TakeBack(gone, handle.resource).(closers := s.closers - {h})
    else
      gone.(world := gone.world.(freed := gone.world.freed + [handle.resource]))
  }

  function Flush(s: State): State {
    s.(idle := [], count := s.count - |s.idle|, world := s.world.(freed := s.world.freed + s.idle))
  }

  function ApplySetParam(s: State, name: string, value: Value): State {
    var updated := Updated(s.param, name, value);
    if updated.None? || (name in s.param && s.param[name] == value) then s
    else Flush(s.(param := updated.value, version := s.version + 1))
  }

  function ApplyWake(s: State, t: nat, timedOut: bool): State
    requires t in s.world.waiters
  {
    var leaves := s.(world := s.world.(waiters := s.world.waiters - {t}));
    if s.idle != [] then TakeIdle(leaves)
    else if timedOut && s.world.waiters[t].timed then leaves
    else s.(world := s.world.(waiters := s.world.waiters[t := s.world.waiters[t].(notified := false)]))
  }

  function ApplyDestroy(s: State): State {
    s.(alive := false, idle := [], closers := {},
       world := s.world.(handles := Unbound(s.world.handles, s.closers), freed := s.world.freed + s.idle))
  }

  predicate Enabled(s: State, step: Step) {
    match step
    case Release(h) => h in s.world.handles
    case Get(_) => s.alive
    case GetWaitFor(t, _, _) => s.alive && t !in s.world.waiters
    case Wake(t, _) => s.alive && t in s.world.waiters
    case Destroy => s.alive && s.world.waiters == map[]
    case SetParam(_, _) => s.alive && s.versioned
    case SetParameter(_) => s.alive && s.versioned
    case IncVersion => s.alive && s.versioned
    case _ => s.alive
  }

  function Apply(s: State, step: Step): State
    requires Enabled(s, step)
  {
    match step
    case Get(built) =>
      if s.idle != [] then TakeIdle(s) else if Full(s) || !built then s else Create(s)
    case GetWaitFor(t, timed, built) =>
      if s.idle != [] then TakeIdle(s)
      else if Full(s) then s.(world := s.world.(waiters := s.world.waiters[t := Waiter(timed, false)]))
      else if !built then s
      else Create(s)
    case Wake(t, timedOut) => ApplyWake(s, t, timedOut)
    case Release(h) => ApplyRelease(s, h)
    case ReleaseIdle => Flush(s)
    case SetMaxPool(n) => s.(maxPool := n)
    case SetMaxIdle(n) => s.(maxIdle := n)
    case SetParam(name, value) => ApplySetParam(s, name, value)
    case SetParameter(param) => Flush(s.(param := param, version := s.version + 1))
    case IncVersion => s.(version := s.version + 1)
    case Destroy => ApplyDestroy(s)
  }

  /** What the caller of a step sees. */
  function OutcomeOf(s: State, step: Step): Outcome
    requires Enabled(s, step)
  {
    match step
    case Get(built) =>
      if s.idle != [] then Granted(s.world.nextHandle)
      else if Full(s) then NoResource
      else if !built then CreateFailed
      else Granted(s.world.nextHandle)
    case GetWaitFor(_, _, built) =>
      if s.idle != [] then Granted(s.world.nextHandle)
      else if Full(s) then Blocked
      else if !built then CreateFailed
      else Granted(s.world.nextHandle)
    case Wake(t, timedOut) =>
      if s.idle != [] then Granted(s.world.nextHandle)
      else if timedOut && s.world.waiters[t].timed then TimedOut
      else Blocked
    case SetParam(name, value) => if Updated(s.param, name, value).None? then ParamMismatch else Done
    case _ => Done
  }

  /** A run of one pool from its construction, over every interleaving of its users' steps. */
  ghost predicate IsRun(states: seq<State>, steps: seq<Step>) {
    && |states| == |steps| + 1
    && (exists v, p, m, i :: states[0] == Initial(v, p, m, i))
    && forall i :: 0 <= i < |steps| ==> Enabled(states[i], steps[i]) && states[i + 1] == Apply(states[i], steps[i])
  }

  // ----- Conservation and exactly-once release -----

  /** No resource is in two places at once or twice in one place: idle, handed out, or freed. */
  ghost predicate Disjoint(s: State) {
    Placed(s.idle, s.world.handles, s.world.freed)
  }

  ghost predicate Numbered(s: State) {
    var w := s.world;
    && (forall i :: 0 <= i < |s.idle| ==> s.idle[i].id < w.nextResource)
    && (forall i :: 0 <= i < |w.freed| ==> w.freed[i].id < w.nextResource)
    && (forall h :: h in w.handles ==> w.handles[h].resource.id < w.nextResource && h < w.nextHandle)
  }

  ghost predicate NoLeak(s: State) {
    NoneLost(s.idle, s.world.handles, s.world.freed, s.world.nextResource)
  }

  /** The pool's books: its counter, its closers, and the back pointers of the closers. */
  ghost predicate Books(s: State) {
    if s.alive then
      && s.count == |s.idle| + |s.world.handles|
      && s.closers == s.world.handles.Keys
      && forall h :: h in s.world.handles ==> s.world.handles[h].bound
    else
      && s.idle == [] && s.closers == {} && s.world.waiters == map[]
      && forall h :: h in s.world.handles ==> !s.world.handles[h].bound
  }

  ghost predicate Conserved(s: State) {
    Disjoint(s) && Numbered(s) && NoLeak(s) && Books(s)
  }

  lemma GrantIdleConserves(s: State)
    requires Conserved(s) && s.alive && s.idle != []
    ensures Conserved(TakeIdle(s))
  {
    GrantIdleKeepsPlaces(s);
    GrantIdleKeepsBooks(s);
  }

  lemma GrantIdleKeepsPlaces(s: State)
    requires Disjoint(s) && Numbered(s) && NoLeak(s) && s.idle != []
    ensures Disjoint(TakeIdle(s)) && NoLeak(TakeIdle(s))
  {
    var h := s.world.nextHandle;
    HandOutIdle(s.idle, s.world.handles, s.world.freed, h);
    HandOutIdleLosesNone(s.idle, s.world.handles, s.world.freed, s.world.nextResource, h);
  }

  lemma GrantIdleKeepsBooks(s: State)
    requires Numbered(s) && Books(s) && s.alive && s.idle != []
    ensures Numbered(TakeIdle(s)) && Books(TakeIdle(s))
  {
    assert TakeIdle(s).world.handles.Keys == s.world.handles.Keys + {s.world.nextHandle};
    assert |TakeIdle(s).world.handles| == |s.world.handles| + 1;
  }

  lemma CreateConserves(s: State)
    requires Conserved(s) && s.alive
    ensures Conserved(Create(s))
  {
    CreateKeepsPlaces(s);
    CreateKeepsBooks(s);
  }

  lemma CreateKeepsPlaces(s: State)
    requires Disjoint(s) && Numbered(s) && NoLeak(s)
    ensures Disjoint(Create(s)) && NoLeak(Create(s))
  {
    var h := s.world.nextHandle;
    var r := Resource(s.world.nextResource, s.param, if s.versioned then s.version else 0);
    HandOutNew(s.idle, s.world.handles, s.world.freed, h, r);
    HandOutNewLosesNone(s.idle, s.world.handles, s.world.freed, s.world.nextResource, h, r);
  }

  lemma CreateKeepsBooks(s: State)
    requires Numbered(s) && Books(s) && s.alive
    ensures Numbered(Create(s)) && Books(Create(s))
  {
    assert Create(s).world.handles.Keys == s.world.handles.Keys + {s.world.nextHandle};
    assert |Create(s).world.handles| == |s.world.handles| + 1;
  }

  lemma ReleaseConserves(s: State, h: nat)
    requires Conserved(s) && h in s.world.handles
    ensures Conserved(ApplyRelease(s, h))
  {
    ReleaseKeepsPlaces(s, h);
    ReleaseKeepsNumbers(s, h);
    ReleaseKeepsBooks(s, h);
  }

  lemma ReleaseKeepsNumbers(s: State, h: nat)
    requires Numbered(s) && h in s.world.handles
    ensures Numbered(ApplyRelease(s, h))
  {
  }

  lemma ReleaseKeepsPlaces(s: State, h: nat)
    requires Disjoint(s) && NoLeak(s) && h in s.world.handles
    ensures Disjoint(ApplyRelease(s, h)) && NoLeak(ApplyRelease(s, h))
  {
    var w := s.world;
    MoveToIdle(s.idle, w.handles, w.freed, h);
    MoveToFreed(s.idle, w.handles, w.freed, h);
    ReturnLosesNone(s.idle, w.handles, w.freed, w.nextResource, h);
  }

  lemma ReleaseKeepsBooks(s: State, h: nat)
    requires Books(s) && h in s.world.handles
    ensures Books(ApplyRelease(s, h))
  {
    var handles := s.world.handles;
    assert (handles - {h}).Keys == handles.Keys - {h};
    assert |handles - {h}| == |handles| - 1;
  }

  lemma FlushConserves(s: State)
    requires Conserved(s) && s.alive
    ensures Conserved(Flush(s))
  {
    FreeIdle(s.idle, s.world.handles, s.world.freed);
    FreeIdleLosesNone(s.idle, s.world.handles, s.world.freed, s.world.nextResource);
  }

  lemma DestroyConserves(s: State)
    requires Conserved(s) && s.alive && s.world.waiters == map[]
    ensures Conserved(ApplyDestroy(s))
  {
    FlushConserves(s);
    UnboundKeepsPlaces([], s.world.handles, s.world.freed + s.idle, s.closers, s.world.nextResource);
  }

  /** A step that leaves resources, handles and counter alone. */
  lemma SamePlacesConserve(s: State, t: State)
    requires Conserved(s)
    requires t.alive == s.alive && t.count == s.count && t.idle == s.idle && t.closers == s.closers
    requires t.world.handles == s.world.handles && t.world.freed == s.world.freed
    requires t.world.nextHandle == s.world.nextHandle && t.world.nextResource == s.world.nextResource
    requires s.alive || t.world.waiters == s.world.waiters
    ensures Conserved(t)
  {
  }

  lemma StepConserves(s: State, step: Step)
    requires Conserved(s) && Enabled(s, step)
    ensures Conserved(Apply(s, step))
  {
    match step
    case Get(built) =>
      if s.idle != [] {
        GrantIdleConserves(s);
      } else if !Full(s) && built {
        CreateConserves(s);
      }
    case GetWaitFor(t, timed, built) =>
      if s.idle != [] {
        GrantIdleConserves(s);
      } else if Full(s) {
        SamePlacesConserve(s, Apply(s, step));
      } else if built {
        CreateConserves(s);
      }
    case Wake(t, timedOut) =>
      var leaves := s.(world := s.world.(waiters := s.world.waiters - {t}));
      SamePlacesConserve(s, leaves);
      if s.idle != [] {
        GrantIdleConserves(leaves);
      } else {
        SamePlacesConserve(s, Apply(s, step));
      }
    case Release(h) => ReleaseConserves(s, h);
    case ReleaseIdle => FlushConserves(s);
    case SetMaxPool(n) => SamePlacesConserve(s, Apply(s, step));
    case SetMaxIdle(n) => SamePlacesConserve(s, Apply(s, step));
    case SetParam(name, value) =>
      var updated := Updated(s.param, name, value);
      if updated.Some? {
        SamePlacesConserve(s, s.(param := updated.value, version := s.version + 1));
        FlushConserves(s.(param := updated.value, version := s.version + 1));
      }
    case SetParameter(param) =>
      SamePlacesConserve(s, s.(param := param, version := s.version + 1));
      FlushConserves(s.(param := param, version := s.version + 1));
    case IncVersion => SamePlacesConserve(s, Apply(s, step));
    case Destroy => DestroyConserves(s);
  }

  /** In every reachable state each resource is in exactly one place and the pool's books agree. */
  lemma {:induction false} PoolConservesResources(states: seq<State>, steps: seq<Step>, n: nat)
    requires IsRun(states, steps) && n < |states|
    ensures Conserved(states[n])
  {
    if n > 0 {
      PoolConservesResources(states, steps, n - 1);
      StepConserves(states[n - 1], steps[n - 1]);
    }
  }

  /** Once the pool is gone and every handle has been dropped, each resource has been freed exactly once. */
  lemma EverythingIsFreedExactlyOnce(states: seq<State>, steps: seq<Step>, n: nat, id: nat)
    requires IsRun(states, steps) && n < |states|
    requires !states[n].alive && states[n].world.handles == map[] && id < states[n].world.nextResource
    ensures exists i :: 0 <= i < |states[n].world.freed| && states[n].world.freed[i].id == id
                        && forall j :: 0 <= j < |states[n].world.freed| && states[n].world.freed[j].id == id ==> j == i
  {
    PoolConservesResources(states, steps, n);
    var freed := states[n].world.freed;
    assert IdIn(freed, id);
    var i :| 0 <= i < |freed| && freed[i].id == id;
    forall j | 0 <= j < |freed| && freed[j].id == id
      ensures j == i
    {
    }
  }

  // ----- Limits -----

  /** The counter grows only within the limit then in force, and so does the idle queue. */
  predicate Respects(s: State, step: Step, t: State) {
    && (t.count > s.count ==> t.maxPool == 0 || t.count <= t.maxPool)
    && (|t.idle| > |s.idle| ==> |t.idle| <= t.maxIdle)
    && (!step.SetMaxPool? ==> t.maxPool == s.maxPool) && (!step.SetMaxIdle? ==> t.maxIdle == s.maxIdle)
    && (t.alive ==> s.alive)
  }

  lemma GrowthRespectsLimits(states: seq<State>, steps: seq<Step>, n: nat)
    requires IsRun(states, steps) && n < |steps|
    ensures Respects(states[n], steps[n], states[n + 1])
  {
    PoolConservesResources(states, steps, n);
    StepRespectsLimits(states[n], steps[n]);
  }

  lemma StepRespectsLimits(s: State, step: Step)
    requires Conserved(s) && Enabled(s, step)
    ensures Respects(s, step, Apply(s, step))
  {
    match step
    case Release(h) => ReleaseRespectsLimits(s, h);
    case Get(_) => TakingRespectsLimits(s);
    case GetWaitFor(_, _, _) => TakingRespectsLimits(s);
    case Wake(t, _) => TakingRespectsLimits(s.(world := s.world.(waiters := s.world.waiters - {t})));
    case _ =>
  }

  lemma ReleaseRespectsLimits(s: State, h: nat)
    requires h in s.world.handles
    ensures var t := ApplyRelease(s, h);
            && t.count <= s.count && t.maxPool == s.maxPool && t.maxIdle == s.maxIdle
            && (|t.idle| > |s.idle| ==> |t.idle| <= t.maxIdle)
  {
  }

  lemma TakingRespectsLimits(s: State)
    ensures var t := Create(s);
            t.count == s.count + 1 && t.maxPool == s.maxPool && t.maxIdle == s.maxIdle && t.idle == s.idle
    ensures s.idle != [] ==>
              var t := TakeIdle(s);
              t.count == s.count && t.maxPool == s.maxPool && t.maxIdle == s.maxIdle && |t.idle| < |s.idle|
  {
  }

  /** Limits that are not changed are kept; a maximum of 0 means no limit on the resources. */
  lemma {:induction false} LimitsAreKept(states: seq<State>, steps: seq<Step>, n: nat)
    requires IsRun(states, steps) && n < |states|
    requires forall i :: 0 <= i < |steps| ==> !steps[i].SetMaxPool? && !steps[i].SetMaxIdle?
    ensures states[n].maxPool == states[0].maxPool && states[n].maxIdle == states[0].maxIdle
    ensures |states[n].idle| <= states[n].maxIdle
    ensures states[n].alive && states[n].maxPool > 0 ==> states[n].count <= states[n].maxPool
  {
    if n > 0 {
      LimitsAreKept(states, steps, n - 1);
      GrowthRespectsLimits(states, steps, n - 1);
    }
  }

  // ----- Versions and parameters -----

  /** Resources of the pool's own version were built from its own parameters, and so was every idle one. */
  ghost predicate Fresh(s: State) {
    && (forall i :: 0 <= i < |s.idle| ==> s.idle[i].param == s.param && 0 <= s.idle[i].version <= s.version)
    && (forall h :: h in s.world.handles ==>
          var r := s.world.handles[h].resource;
          0 <= r.version <= s.version && (r.version == s.version ==> r.param == s.param))
    && 0 <= s.version && (!s.versioned ==> s.version == 0)
  }

  ghost predicate AllIdleCurrent(s: State) {
    forall i :: 0 <= i < |s.idle| ==> s.idle[i].version == s.version
  }

  lemma GrantKeepsFresh(s: State)
    requires Fresh(s)
    ensures Fresh(Create(s)) && (s.idle != [] ==> Fresh(TakeIdle(s)))
  {
  }

  lemma ReleaseKeepsFresh(s: State, h: nat)
    requires Fresh(s) && h in s.world.handles
    ensures Fresh(ApplyRelease(s, h))
  {
  }

  lemma ChangeKeepsFresh(s: State, param: Param)
    requires Fresh(s) && s.versioned
    ensures Fresh(Flush(s.(param := param, version := s.version + 1)))
  {
  }

  lemma DestroyKeepsFresh(s: State)
    requires Fresh(s)
    ensures Fresh(ApplyDestroy(s))
  {
  }

  lemma StepKeepsFresh(s: State, step: Step)
    requires Fresh(s) && Enabled(s, step)
    ensures Fresh(Apply(s, step))
  {
    match step
    case Get(_) => GrantKeepsFresh(s);
    case GetWaitFor(_, _, _) => GrantKeepsFresh(s);
    case Wake(t, _) =>
      assert Fresh(s.(world := s.world.(waiters := s.world.waiters - {t})));
      GrantKeepsFresh(s.(world := s.world.(waiters := s.world.waiters - {t})));
    case Release(h) => ReleaseKeepsFresh(s, h);
    case SetParam(name, value) =>
      if Updated(s.param, name, value).Some? {
        ChangeKeepsFresh(s, Updated(s.param, name, value).value);
      }
    case SetParameter(param) => ChangeKeepsFresh(s, param);
    case Destroy => DestroyKeepsFresh(s);
    case _ =>
  }

  lemma {:induction false} ParametersStayFresh(states: seq<State>, steps: seq<Step>, n: nat)
    requires IsRun(states, steps) && n < |states|
    ensures Fresh(states[n])
  {
    if n > 0 {
      ParametersStayFresh(states, steps, n - 1);
      StepKeepsFresh(states[n - 1], steps[n - 1]);
    }
  }

  /** In any run, with incVersion or without, what a caller is granted was built from the parameters in force. */
  lemma GrantsUseCurrentParameters(states: seq<State>, steps: seq<Step>, n: nat)
    requires IsRun(states, steps) && n < |steps| && OutcomeOf(states[n], steps[n]).Granted?
    ensures var h := OutcomeOf(states[n], steps[n]).handle;
            && h in states[n + 1].world.handles && h !in states[n].world.handles
            && states[n + 1].world.handles[h].resource.param == states[n].param
  {
    ParametersStayFresh(states, steps, n);
    PoolConservesResources(states, steps, n);
    GrantUsesCurrentParameters(states[n], steps[n]);
  }

  lemma GrantUsesCurrentParameters(s: State, step: Step)
    requires Enabled(s, step) && OutcomeOf(s, step).Granted?
    requires forall i :: 0 <= i < |s.idle| ==> s.idle[i].param == s.param
    ensures OutcomeOf(s, step).handle == s.world.nextHandle
    ensures s.world.nextHandle in Apply(s, step).world.handles
    ensures Apply(s, step).world.handles[s.world.nextHandle].resource.param == s.param
  {
  }

  /** Only incVersion can leave idle resources behind the pool's version, and it does so to all there are. */
  lemma IdleGoesStaleOnlyByIncVersion(s: State, step: Step)
    requires Fresh(s) && AllIdleCurrent(s) && Enabled(s, step)
    ensures AllIdleCurrent(Apply(s, step)) <==> !LeavesStale(s, step)
  {
    if step.IncVersion? && s.idle != [] {
      assert Apply(s, step).idle[0].version != Apply(s, step).version;
    }
  }

  lemma RunGoesStaleIff(states: seq<State>, steps: seq<Step>, n: nat)
    requires IsRun(states, steps) && n < |steps|
    ensures AllIdleCurrent(states[n]) ==> (AllIdleCurrent(states[n + 1]) <==> !LeavesStale(states[n], steps[n]))
  {
    ParametersStayFresh(states, steps, n);
    var s, step := states[n], steps[n];
    if AllIdleCurrent(s) {
      IdleGoesStaleOnlyByIncVersion(s, step);
    }
    assert states[n + 1] == Apply(s, step);
  }

  /**
   * In every run: all idle resources have carried the pool's version up to some state exactly
   * when incVersion has been called only on an empty idle queue.
   */
  lemma {:induction false} VersionsStayCurrentIff(states: seq<State>, steps: seq<Step>, n: nat)
    requires IsRun(states, steps) && n < |states|
    ensures (forall k :: 0 <= k <= n ==> AllIdleCurrent(states[k]))
            <==> (forall i :: 0 <= i < n ==> !LeavesStale(states[i], steps[i]))
  {
    if n > 0 {
      VersionsStayCurrentIff(states, steps, n - 1);
      RunGoesStaleIff(states, steps, n - 1);
    }
  }

  predicate LeavesStale(s: State, step: Step) {
    step.IncVersion? && s.idle != []
  }

  /** ... and then every resource carries it at the moment it is granted. */
  lemma GrantsCarryCurrentVersion(states: seq<State>, steps: seq<Step>, n: nat)
    requires IsRun(states, steps) && n < |steps| && OutcomeOf(states[n], steps[n]).Granted?
    requires forall i :: 0 <= i < n ==> !LeavesStale(states[i], steps[i])
    ensures var h := OutcomeOf(states[n], steps[n]).handle;
            h in states[n + 1].world.handles
            && states[n + 1].world.handles[h].resource.version == states[n + 1].version
  {
    VersionsStayCurrentIff(states, steps, n);
    GrantIsStaleIff(states, steps, n);
  }

  /** A granted resource is behind the pool's version exactly when the front of the idle queue is. */
  lemma GrantIsStaleIff(states: seq<State>, steps: seq<Step>, n: nat)
    requires IsRun(states, steps) && n < |steps| && OutcomeOf(states[n], steps[n]).Granted?
    ensures var h, s, t := OutcomeOf(states[n], steps[n]).handle, states[n], states[n + 1];
            && h in t.world.handles && t.version == s.version
            && (t.world.handles[h].resource.version != t.version
                <==> s.idle != [] && s.idle[0].version != s.version)
  {
    ParametersStayFresh(states, steps, n);
    StepGrantsStaleIff(states[n], steps[n]);
  }

  lemma StepGrantsStaleIff(s: State, step: Step)
    requires Enabled(s, step) && OutcomeOf(s, step).Granted? && (!s.versioned ==> s.version == 0)
    ensures var h, t := OutcomeOf(s, step).handle, Apply(s, step);
            && h in t.world.handles && t.version == s.version
            && (t.world.handles[h].resource.version != t.version
                <==> s.idle != [] && s.idle[0].version != s.version)
  {
  }

  ghost predicate ChangesParam(s: State, step: Step)
    requires Enabled(s, step)
  {
    step.SetParameter? || (step.SetParam? && Apply(s, step) != s)
  }

  /** What holds for ever after a parameter change: first is the first id built after it, v its version. */
  ghost predicate OnlyNewIdle(s: State, first: nat, v: int) {
    && s.versioned && s.version >= v && s.world.nextResource >= first
    && (forall i :: 0 <= i < |s.idle| ==> s.idle[i].id >= first)
    && (forall h :: h in s.world.handles ==>
          var r := s.world.handles[h].resource; r.id < first ==> r.version < v)
  }

  /** A resource built before a parameter change never enters the idle queue again. */
  lemma OldResourcesNeverReturn(states: seq<State>, steps: seq<Step>, m: nat, n: nat)
    requires IsRun(states, steps) && m < n < |states|
    requires Enabled(states[m], steps[m]) && ChangesParam(states[m], steps[m])
    ensures forall i :: 0 <= i < |states[n].idle| ==> states[n].idle[i].id >= states[m].world.nextResource
  {
    ParametersStayFresh(states, steps, m);
    PoolConservesResources(states, steps, m);
    ChangeLeavesOnlyNewIdle(states[m], steps[m]);
    OnlyNewIdleLasts(states, steps, m + 1, n, states[m].world.nextResource, states[m].version + 1);
  }

  lemma {:induction false} OnlyNewIdleLasts(states: seq<State>, steps: seq<Step>, m: nat, n: nat, first: nat, v: int)
    requires IsRun(states, steps) && m <= n < |states| && OnlyNewIdle(states[m], first, v)
    ensures OnlyNewIdle(states[n], first, v)
  {
    if m < n {
      OnlyNewIdleLasts(states, steps, m, n - 1, first, v);
      var s, step := states[n - 1], steps[n - 1];
      KeepsOnlyNewIdle(s, step, first, v);
      assert states[n] == Apply(s, step);
    }
  }

  lemma ChangeLeavesOnlyNewIdle(s: State, step: Step)
    requires Fresh(s) && Conserved(s) && Enabled(s, step) && ChangesParam(s, step)
    ensures OnlyNewIdle(Apply(s, step), s.world.nextResource, s.version + 1)
  {
  }

  lemma KeepsOnlyNewIdle(s: State, step: Step, first: nat, v: int)
    requires OnlyNewIdle(s, first, v) && Enabled(s, step)
    ensures OnlyNewIdle(Apply(s, step), first, v)
  {
    match step
    case Release(h) => ReleaseKeepsOnlyNewIdle(s, h, first, v);
    case Get(_) => GrantKeepsOnlyNewIdle(s, first, v);
    case GetWaitFor(_, _, _) => GrantKeepsOnlyNewIdle(s, first, v);
    case Wake(t, _) => GrantKeepsOnlyNewIdle(s.(world := s.world.(waiters := s.world.waiters - {t})), first, v);
    case _ =>
  }

  lemma ReleaseKeepsOnlyNewIdle(s: State, h: nat, first: nat, v: int)
    requires OnlyNewIdle(s, first, v) && h in s.world.handles
    ensures OnlyNewIdle(ApplyRelease(s, h), first, v)
  {
  }

  lemma GrantKeepsOnlyNewIdle(s: State, first: nat, v: int)
    requires OnlyNewIdle(s, first, v)
    ensures OnlyNewIdle(Create(s), first, v) && (s.idle != [] ==> OnlyNewIdle(TakeIdle(s), first, v))
  {
  }

  /** incVersion leaves stale idle resources, and get hands them out without looking. */
  lemma IncVersionMayGrantStale(param: Param) returns (states: seq<State>, steps: seq<Step>)
    ensures IsRun(states, steps) && |steps| == 4 && steps[3] == Get(true)
    ensures 1 in states[4].world.handles && 1 !in states[3].world.handles
    ensures states[4].world.handles[1].resource.version < states[4].version
  {
    steps := [Get(true), Release(0), IncVersion, Get(true)];
    var s0 := Initial(true, param, 0, 100);
    var s1 := Apply(s0, steps[0]);
    var s2 := Apply(s1, steps[1]);
    var s3 := Apply(s2, steps[2]);
    var s4 := Apply(s3, steps[3]);
    states := [s0, s1, s2, s3, s4];
    assert IsRun(states, steps);
  }

  // ----- Waiters -----

  /** No thread sleeps unnotified while a resource is idle. */
  ghost predicate NoLostWakeup(s: State) {
    forall t :: t in s.world.waiters && !s.world.waiters[t].notified ==> s.idle == []
  }

  lemma StepKeepsWakeups(s: State, step: Step)
    requires NoLostWakeup(s) && Enabled(s, step)
    ensures NoLostWakeup(Apply(s, step))
  {
  }

  lemma {:induction false} IdleResourcesWakeWaiters(states: seq<State>, steps: seq<Step>, n: nat)
    requires IsRun(states, steps) && n < |states|
    ensures NoLostWakeup(states[n])
  {
    if n > 0 {
      IdleResourcesWakeWaiters(states, steps, n - 1);
      StepKeepsWakeups(states[n - 1], steps[n - 1]);
    }
  }

  /** A returned resource wakes the sleeping threads exactly when the pool keeps it. */
  lemma ReturnWakesWaitersIff(s: State, h: nat, t: nat)
    requires h in s.world.handles && s.world.handles[h].bound
    requires t in s.world.waiters && !s.world.waiters[t].notified
    ensures var after, r := ApplyRelease(s, h), s.world.handles[h].resource;
            var kept := |s.idle| < s.maxIdle && (!s.versioned || r.version == s.version);
            && t in after.world.waiters
            && (after.world.waiters[t].notified <==> kept)
            && (after.count < s.count <==> !kept)
  {
  }

  ghost predicate Sleeping(s: State) {
    exists t :: t in s.world.waiters && !s.world.waiters[t].notified
  }

  /** A thread sleeps that nobody has notified, although the pool has room for a new resource. */
  ghost predicate Stranded(s: State) {
    s.alive && (s.maxPool == 0 || s.count < s.maxPool) && Sleeping(s)
  }

  /**
   * The steps that strand a waiter: a returned resource that the pool deletes, a new maximum,
   * and a woken thread that goes back to sleep without looking at the maximum again.
   */
  ghost predicate Strands(s: State, step: Step) {
    match step
    case Release(h) =>
      && h in s.world.handles && s.world.handles[h].bound
      && (|s.idle| >= s.maxIdle || (s.versioned && s.world.handles[h].resource.version != s.version))
      && Sleeping(s) && s.count - 1 < s.maxPool
    case SetMaxPool(n) => Sleeping(s) && (n == 0 || s.count < n)
    case Wake(t, timedOut) =>
      && t in s.world.waiters && s.idle == [] && !(timedOut && s.world.waiters[t].timed)
      && (s.maxPool == 0 || s.count < s.maxPool)
    case _ => false
  }

  lemma NotifiedSleepNoMore(s: State)
    ensures !Sleeping(s.(world := s.world.(waiters := NotifyAll(s.world.waiters))))
  {
  }

  lemma ReleaseStrandsIff(s: State, h: nat)
    requires Conserved(s) && h in s.world.handles && !Stranded(s)
    ensures Stranded(ApplyRelease(s, h)) <==> Strands(s, Release(h))
  {
    NotifiedSleepNoMore(s);
    var t := ApplyRelease(s, h);
    if s.world.handles[h].bound && Accepts(s, s.world.handles[h].resource) {
      assert t.world.waiters == NotifyAll(s.world.waiters);
    } else {
      assert t.world.waiters == s.world.waiters;
      assert Sleeping(t) <==> Sleeping(s);
    }
  }

  lemma SleeperLeft(s: State, t: nat, timer: Waiter)
    requires t in s.world.waiters
    ensures Sleeping(s.(world := s.world.(waiters := s.world.waiters - {t}))) ==> Sleeping(s)
    ensures !timer.notified ==> Sleeping(s.(world := s.world.(waiters := s.world.waiters[t := timer])))
  {
    if !timer.notified {
      assert s.world.waiters[t := timer][t] == timer;
    }
    if Sleeping(s.(world := s.world.(waiters := s.world.waiters - {t}))) {
      var u :| u in s.world.waiters - {t} && !(s.world.waiters - {t})[u].notified;
      assert !s.world.waiters[u].notified;
    }
  }

  lemma WakeStrandsIff(s: State, t: nat, timedOut: bool)
    requires NoLostWakeup(s) && s.alive && t in s.world.waiters && !Stranded(s)
    ensures Stranded(ApplyWake(s, t, timedOut)) <==> Strands(s, Wake(t, timedOut))
  {
    SleeperLeft(s, t, s.world.waiters[t].(notified := false));
  }

  lemma SameWaitersStrandIff(s: State, t: State)
    requires t.world.waiters == s.world.waiters && !Stranded(s) && t.alive == s.alive
    requires Full(s) && Sleeping(s) ==> Full(t)
    ensures !Stranded(t)
  {
    assert Sleeping(t) <==> Sleeping(s);
  }

  lemma SleeperMeansEmpty(s: State)
    requires NoLostWakeup(s)
    ensures Sleeping(s) ==> s.idle == []
  {
  }

  lemma BlockingNeverStrands(s: State, step: Step)
    requires NoLostWakeup(s) && !Stranded(s) && Enabled(s, step) && step.GetWaitFor?
    ensures !Stranded(Apply(s, step))
  {
    SleeperMeansEmpty(s);
    if s.idle != [] || !Full(s) {
      SameWaitersStrandIff(s, Apply(s, step));
    }
  }

  lemma StepStrandsIff(s: State, step: Step)
    requires Conserved(s) && NoLostWakeup(s) && !Stranded(s) && Enabled(s, step)
    ensures Stranded(Apply(s, step)) <==> Strands(s, step)
  {
    SleeperMeansEmpty(s);
    match step
    case Release(h) => ReleaseStrandsIff(s, h);
    case Wake(t, timedOut) => WakeStrandsIff(s, t, timedOut);
    case SetMaxPool(n) =>
      assert Sleeping(Apply(s, step)) <==> Sleeping(s);
    case GetWaitFor(_, _, _) => BlockingNeverStrands(s, step);
    case Destroy =>
    case _ => SameWaitersStrandIff(s, Apply(s, step));
  }

  lemma RunStrandsIff(states: seq<State>, steps: seq<Step>, n: nat)
    requires IsRun(states, steps) && n < |steps|
    ensures !Stranded(states[n]) ==> (Stranded(states[n + 1]) <==> Strands(states[n], steps[n]))
  {
    PoolConservesResources(states, steps, n);
    IdleResourcesWakeWaiters(states, steps, n);
    var s, step := states[n], steps[n];
    if !Stranded(s) {
      StepStrandsIff(s, step);
    }
    assert states[n + 1] == Apply(s, step);
  }

  /** In every run: no waiter has been stranded up to some state exactly when no step so far strands one. */
  lemma {:induction false} NobodyIsStrandedIff(states: seq<State>, steps: seq<Step>, n: nat)
    requires IsRun(states, steps) && n < |states|
    ensures (forall k :: 0 <= k <= n ==> !Stranded(states[k]))
            <==> (forall i :: 0 <= i < n ==> !Strands(states[i], steps[i]))
  {
    if n > 0 {
      NobodyIsStrandedIff(states, steps, n - 1);
      RunStrandsIff(states, steps, n - 1);
    }
  }

  /** One more step at the end of a run. */
  lemma Extend(states: seq<State>, steps: seq<Step>, step: Step) returns (longer: seq<State>, more: seq<Step>)
    requires IsRun(states, steps) && Enabled(states[|steps|], step)
    ensures IsRun(longer, more) && more == steps + [step]
    ensures |longer| == |states| + 1 && longer[..|states|] == states
    ensures longer[|states|] == Apply(states[|steps|], step)
  {
    longer, more := states + [Apply(states[|steps|], step)], steps + [step];
    forall i | 0 <= i < |more|
      ensures Enabled(longer[i], more[i]) && longer[i + 1] == Apply(longer[i], more[i])
    {
      assert i < |steps| ==> longer[i] == states[i] && longer[i + 1] == states[i + 1] && more[i] == steps[i];
    }
  }

  /** A run in which the one resource the pool may have is handed out and a thread waits for it. */
  lemma OneWaiting(param: Param, maxIdle: nat) returns (states: seq<State>, steps: seq<Step>)
    ensures IsRun(states, steps) && steps == [Get(true), GetWaitFor(7, false, true)]
    ensures var s := Create(Initial(false, param, 1, maxIdle));
            states[2] == s.(world := s.world.(waiters := map[7 := Waiter(false, false)]))
  {
    states, steps := [Initial(false, param, 1, maxIdle)], [];
    states, steps := Extend(states, steps, Get(true));
    states, steps := Extend(states, steps, GetWaitFor(7, false, true));
  }

  /** A pool that keeps nothing idle frees a returned resource without waking the thread that waits for room. */
  lemma DeletionMayStrandWaiter(param: Param) returns (states: seq<State>, steps: seq<Step>)
    ensures IsRun(states, steps) && steps == [Get(true), GetWaitFor(7, false, true), Release(0)]
    ensures Stranded(states[3])
  {
    states, steps := OneWaiting(param, 0);
    states, steps := Extend(states, steps, Release(0));
    assert !states[3].world.waiters[7].notified;
  }

  /** The resource is kept and the thread notified, but released before it wakes; it sleeps again beside room. */
  lemma FlushMayStrandWaiter(param: Param) returns (states: seq<State>, steps: seq<Step>)
    ensures IsRun(states, steps)
    ensures steps == [Get(true), GetWaitFor(7, false, true), Release(0), ReleaseIdle, Wake(7, false)]
    ensures Stranded(states[5])
  {
    states, steps := OneWaiting(param, 1);
    states, steps := Extend(states, steps, Release(0));
    states, steps := Extend(states, steps, ReleaseIdle);
    states, steps := Extend(states, steps, Wake(7, false));
    assert !states[5].world.waiters[7].notified;
  }

  /** A larger maximum makes room that no waiting thread is told of. */
  lemma LargerMaximumMayStrandWaiter(param: Param) returns (states: seq<State>, steps: seq<Step>)
    ensures IsRun(states, steps) && steps == [Get(true), GetWaitFor(7, false, true), SetMaxPool(2)]
    ensures Stranded(states[3])
  {
    states, steps := OneWaiting(param, 1);
    states, steps := Extend(states, steps, SetMaxPool(2));
    assert !states[3].world.waiters[7].notified;
  }
}
