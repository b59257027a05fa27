/**
 * ResourceAsioPool and ResourceAsioVersionPool as a transition system on one thread: a step
 * is what a coroutine does between two suspensions, or what a closer or the timer service
 * does. The two classes differ in the flag versioned.
 *
 * A suspended get is known by its timer; timers are numbered in the order of their creation.
 */
module AsioPoolSystem {
  import opened Common
  import opened Resources

  /** Cancelled: its async_wait will resume with operation_aborted; Expired: with success. */
  datatype Timer = Pending | Cancelled | Expired

  /** created: the handles granted on the creation path of get. */
  datatype World = World(
    handles: map<nat, Handle>,
    nextHandle: nat,
    created: set<nat>,
    nextResource: nat,
    freed: seq<Resource>,
    timers: map<nat, Timer>,
    nextTimer: nat)

  datatype State = State(
    versioned: bool,
    alive: bool,
    maxCount: nat,
    count: int,
    idleCount: int,
    param: Param,
    version: int,
    idle: seq<Resource>,
    closers: set<nat>,
    waiters: seq<nat>,
    world: World)

  datatype Step =
    | Get(built: bool)                        // from its call to a return, a throw, or the suspension
    | Expire(timer: nat)                      // the timer service completes a wait by timeout
    | Resume(timer: nat)                      // the coroutine continues after the suspension
    | Release(handle: nat, pushed: bool)      // pushed: the lock-free queue takes the resource
    | ReleaseIdle
    | SetParam(name: string, value: Value)
    | SetParameter(param: Param)
    | IncVersion
    | Destroy

  datatype Outcome =
    | Granted(handle: nat)
    | Suspended(timer: nat)
    | CreateFailed
    | NothingAfterWakeup
    | VersionMismatch
    | TimedOut
    | ParamMismatch
    | Done

  function Initial(versioned: bool, param: Param, maxCount: nat): State {
    State(versioned, true, maxCount, 0, 0, param, 0, [], {}, [], World(map[], 0, {}, 0, [], map[], 0))
  }

  // ----- Steps -----

  function Grant(s: State, r: Resource): State {
    var h := s.world.nextHandle;
    s.(world := s.world.(handles := s.world.handles[h := Handle(r, true)], nextHandle := h + 1))
  }

  predicate Stale(s: State, r: Resource) {
    s.versioned && r.version != s.version
  }

  /** Takes the front of the idle queue; a stale resource is deleted, any other is granted. */
  function Pop(s: State): State
    requires s.idle != []
  {
    var popped := s.(idle := s.idle[1..], idleCount := s.idleCount - 1);
    if Stale(s, s.idle[0]) then Discard(popped, s.idle[0]) else Grant(popped, s.idle[0])
  }

  function Discard(s: State, r: Resource): State {
    s.(count := s.count - 1, world := s.world.(freed := s.world.freed + [r]))
  }

  /** The creation path, which alone registers the closer. */
  function Create(s: State): State {
    var h := s.world.nextHandle;
    var r := Resource(s.world.nextResource, s.param, if s.versioned then s.version else 0);
    var t := Grant(s.(count := s.count + 1, world := s.world.(nextResource := s.world.nextResource + 1)), r);
    t.(closers := t.closers + {h}, world := t.world.(created := t.world.created + {h}))
  }

  function Suspend(s: State): State {
    var t := s.world.nextTimer;
    s.(waiters := s.waiters + [t], world := s.world.(timers := s.world.timers[t := Pending], nextTimer := t + 1))
  }

  predicate HasRoom(s: State) {
    s.maxCount == 0 || s.count < s.maxCount
  }

  function CreateOrSuspend(s: State, built: bool): State {
    if !HasRoom(s) then Suspend(s) else if built then Create(s) else s
  }

  function ApplyGet(s: State, built: bool): State {
    if s.idle == [] then CreateOrSuspend(s, built)
    else if Stale(s, s.idle[0]) then CreateOrSuspend(Pop(s), built)
    else Pop(s)
  }

  function Filter(ws: seq<nat>, t: nat): seq<nat> {
    if ws == [] then []
    else (if ws[0] == t then [] else [ws[0]]) + Filter(ws[1..], t)
  }

  /** What a resumed get does to the waiter queue. */
  function Leave(s: State, t: nat): State {
    s.(waiters := if s.waiters != [] && s.waiters[0] == t then s.waiters[1..] else Filter(s.waiters, t),
       world := s.world.(timers := s.world.timers - {t}))
  }

  function ApplyResume(s: State, t: nat): State
    requires t in s.world.timers
  {
    var left := Leave(s, t);
    if s.world.timers[t] == Cancelled && s.idle != [] then Pop(left) else left
  }

  /** Takes the longest waiting timer off the queue and cancels it; one that has expired is past cancelling. */
  function WakeOne(s: State): State {
    if s.waiters == [] then s
    else
      var t := s.waiters[0];
      s.(waiters := s.waiters[1..],
         world := s.world.(timers :=
           if t in s.world.timers && s.world.timers[t] == Pending then s.world.timers[t := Cancelled]
           else s.world.timers))
  }

  function TakeBack(s: State, r: Resource, pushed: bool): State {
    if Stale(s, r) then
      Discard(s, r)
    else
      WakeOne(if pushed then s.(idle := s.idle + [r], idleCount := s.idleCount + 1) else Discard(s, r))
  }

  function ApplyRelease(s: State, h: nat, pushed: bool): State
    requires h in s.world.handles
  {
    var handle := s.world.handles[h];
    var gone := s.(world := s.world.(handles := s.world.handles - {h}));
    if handle.bound then
      TakeBack(gone, handle.resource, pushed).(closers := s.closers - {h})
    else
      gone.(world := gone.world.(freed := gone.world.freed + [handle.resource]))
  }

  function Flush(s: State): State {
    s.(idle := [], count := s.count - |s.idle|, idleCount := s.idleCount - |s.idle|,
       world := s.world.(freed := s.world.freed + s.idle))
  }

  function ApplySetParam(s: State, name: string, value: Value): State {
    var updated := Updated(s.param, name, value);
    if updated.None? || (name in s.param && s.param[name] == value) then s
    else Flush(s.(param := updated.value, version := s.version + 1))
  }

  function ApplyDestroy(s: State): State {
    s.(alive := false, idle := [], closers := {},
       world := s.world.(handles := Unbound(s.world.handles, s.closers), freed := s.world.freed + s.idle))
  }

  /** A closer must not run while it points to a pool that is gone; no coroutine outlives the pool it waits in. */
  predicate Enabled(s: State, step: Step) {
    match step
    case Release(h, _) => h in s.world.handles && (s.world.handles[h].bound ==> s.alive)
    case Expire(t) => s.alive && t in s.world.timers && s.world.timers[t] == Pending
    case Resume(t) => s.alive && t in s.world.timers && s.world.timers[t] != Pending
    case Destroy => s.alive && s.world.timers == map[]
    case SetParam(_, _) => s.alive && s.versioned
    case SetParameter(_) => s.alive && s.versioned
    case IncVersion => s.alive && s.versioned
    case _ => s.alive
  }

  function Apply(s: State, step: Step): State
    requires Enabled(s, step)
  {
    match step
    case Get(built) => ApplyGet(s, built)
    case Expire(t) => s.(world := s.world.(timers := s.world.timers[t := Expired]))
    case Resume(t) => ApplyResume(s, t)
    case Release(h, pushed) => ApplyRelease(s, h, pushed)
    case ReleaseIdle => Flush(s)
    case SetParam(name, value) => ApplySetParam(s, name, value)
    case SetParameter(param) => Flush(s.(param := param, version := s.version + 1))
    case IncVersion => s.(version := s.version + 1)
    case Destroy => ApplyDestroy(s)
  }

  function OutcomeOf(s: State, step: Step): Outcome
    requires Enabled(s, step)
  {
    match step
    case Get(built) =>
      if s.idle != [] && !Stale(s, s.idle[0]) then Granted(s.world.nextHandle)
      else if !HasRoom(if s.idle == [] then s else Pop(s)) then Suspended(s.world.nextTimer)
      else if !built then CreateFailed
      else Granted(s.world.nextHandle)
    case Resume(t) =>
      if s.world.timers[t] != Cancelled then TimedOut
      else if s.idle == [] then NothingAfterWakeup
      else if Stale(s, s.idle[0]) then VersionMismatch
      else Granted(s.world.nextHandle)
    case SetParam(name, value) => if Updated(s.param, name, value).None? then ParamMismatch else Done
    case _ => Done
  }

  ghost predicate IsRun(states: seq<State>, steps: seq<Step>) {
    && |states| == |steps| + 1
    && (exists v, p, m :: states[0] == Initial(v, p, m))
    && forall i :: 0 <= i < |steps| ==> Enabled(states[i], steps[i]) && states[i + 1] == Apply(states[i], steps[i])
  }

  // ----- Conservation -----

  ghost predicate Places(s: State) {
    && Placed(s.idle, s.world.handles, s.world.freed)
    && NoneLost(s.idle, s.world.handles, s.world.freed, s.world.nextResource)
  }

  ghost predicate Numbered(s: State) {
    var w := s.world;
    && AllBelow(s.idle, w.nextResource) && AllBelow(w.freed, w.nextResource)
    && HandlesBelow(w.handles, w.nextResource, w.nextHandle)
    && (forall h :: h in w.created ==> h < w.nextHandle)
  }

  /** The counters are exact, the limit is kept, and the registered closers are those of created handles only. */
  ghost predicate Books(s: State) {
    s.alive ==>
      && s.idleCount == |s.idle|
      && s.count == |s.idle| + |s.world.handles|
      && (s.maxCount > 0 ==> s.count <= s.maxCount)
      && s.closers == s.world.created * s.world.handles.Keys
      && forall h :: h in s.world.handles ==> s.world.handles[h].bound
  }

  ghost predicate Conserved(s: State) {
    Places(s) && Numbered(s) && Books(s)
  }

  lemma GrantKeepsPlaces(s: State)
    requires Places(s) && Numbered(s)
    ensures Places(Create(s))
    ensures s.idle != [] ==> Places(Grant(s.(idle := s.idle[1..], idleCount := s.idleCount - 1), s.idle[0]))
  {
    var w, h := s.world, s.world.nextHandle;
    var r := Resource(w.nextResource, s.param, if s.versioned then s.version else 0);
    HandOutNew(s.idle, w.handles, w.freed, h, r);
    HandOutNewLosesNone(s.idle, w.handles, w.freed, w.nextResource, h, r);
    if s.idle != [] {
      HandOutIdle(s.idle, w.handles, w.freed, h);
      HandOutIdleLosesNone(s.idle, w.handles, w.freed, w.nextResource, h);
    }
  }

  lemma DiscardKeepsPlaces(s: State)
    requires Places(s) && s.idle != []
    ensures Places(Discard(s.(idle := s.idle[1..], idleCount := s.idleCount - 1), s.idle[0]))
  {
    FreeFront(s.idle, s.world.handles, s.world.freed, s.world.nextResource);
  }

  lemma PopConserves(s: State)
    requires Conserved(s) && s.alive && s.idle != []
    ensures Conserved(Pop(s))
  {
    if Stale(s, s.idle[0]) {
      DiscardKeepsPlaces(s);
    } else {
      GrantKeepsPlaces(s);
      GrantKeepsBooks(s);
      GrantKeepsNumbers(s);
    }
  }

  lemma GrantKeepsNumbers(s: State)
    requires Numbered(s) && s.idle != []
    ensures Numbered(Grant(s.(idle := s.idle[1..], idleCount := s.idleCount - 1), s.idle[0]))
  {
  }

  lemma GrantKeepsBooks(s: State)
    requires Numbered(s) && Books(s) && s.alive && s.idle != []
    ensures Books(Grant(s.(idle := s.idle[1..], idleCount := s.idleCount - 1), s.idle[0]))
  {
    assert s.world.nextHandle !in s.world.handles;
    AddHandle(s.world.handles, s.world.nextHandle, Handle(s.idle[0], true));
  }

  lemma CreateKeepsBooks(s: State)
    requires Numbered(s) && Books(s) && s.alive && HasRoom(s)
    ensures Books(Create(s))
  {
    var r := Resource(s.world.nextResource, s.param, if s.versioned then s.version else 0);
    assert s.world.nextHandle !in s.world.handles;
    AddToBoth(s.world.created, s.world.handles.Keys, s.world.nextHandle);
    AddHandle(s.world.handles, s.world.nextHandle, Handle(r, true));
  }

  lemma AddToBoth<T>(a: set<T>, b: set<T>, x: T)
    ensures (a + {x}) * (b + {x}) == a * b + {x}
  {
  }

  lemma CreateKeepsNumbers(s: State)
    requires Numbered(s)
    ensures Numbered(Create(s))
  {
  }

  lemma CreateOrSuspendConserves(s: State, built: bool)
    requires Conserved(s) && s.alive
    ensures Conserved(CreateOrSuspend(s, built))
  {
    if HasRoom(s) {
      GrantKeepsPlaces(s);
      CreateKeepsNumbers(s);
      CreateKeepsBooks(s);
    }
  }

  lemma ReleaseConserves(s: State, h: nat, pushed: bool)
    requires Conserved(s) && h in s.world.handles && (s.world.handles[h].bound ==> s.alive)
    ensures Conserved(ApplyRelease(s, h, pushed))
  {
    ReleaseShape(s, h, pushed);
    ReleaseKeepsPlaces(s, h, ApplyRelease(s, h, pushed));
    ReleaseKeepsNumbers(s, h, ApplyRelease(s, h, pushed));
    ReleaseKeepsBooks(s, h, pushed);
  }

  /** Where the resource of a dropped handle goes: the end of the idle queue, unless stale, or the deleted ones. */
  ghost predicate Released(s: State, h: nat, t: State)
    requires h in s.world.handles
  {
    var r, w, v := s.world.handles[h].resource, s.world, t.world;
    && t.versioned == s.versioned && t.param == s.param && t.version == s.version
    && v.handles == w.handles - {h}
    && v.nextResource == w.nextResource && v.nextHandle == w.nextHandle && v.created == w.created
    && (|| (t.idle == s.idle && v.freed == w.freed + [r])
        || (t.idle == s.idle + [r] && v.freed == w.freed && !Stale(s, r)))
  }

  lemma ReleaseShape(s: State, h: nat, pushed: bool)
    requires h in s.world.handles
    ensures Released(s, h, ApplyRelease(s, h, pushed))
  {
    var r := s.world.handles[h].resource;
    var gone := s.(world := s.world.(handles := s.world.handles - {h}));
    var kept := if pushed then gone.(idle := s.idle + [r], idleCount := s.idleCount + 1) else Discard(gone, r);
    WakeOneChangesWaitersOnly(kept);
  }

  lemma WakeOneChangesWaitersOnly(s: State)
    ensures var t := WakeOne(s);
            t == s.(waiters := t.waiters, world := s.world.(timers := t.world.timers))
  {
  }

  lemma ReleaseKeepsPlaces(s: State, h: nat, t: State)
    requires Places(s) && h in s.world.handles && Released(s, h, t)
    ensures Places(t)
  {
    var w := s.world;
    MoveToIdle(s.idle, w.handles, w.freed, h);
    MoveToFreed(s.idle, w.handles, w.freed, h);
    ReturnLosesNone(s.idle, w.handles, w.freed, w.nextResource, h);
  }

  lemma ReleaseKeepsNumbers(s: State, h: nat, t: State)
    requires Numbered(s) && h in s.world.handles && Released(s, h, t)
    ensures Numbered(t)
  {
    AppendBelow(s.idle, s.world.handles[h].resource, s.world.nextResource);
    AppendBelow(s.world.freed, s.world.handles[h].resource, s.world.nextResource);
  }

  lemma ReleaseKeepsBooks(s: State, h: nat, pushed: bool)
    requires Books(s) && h in s.world.handles && (s.world.handles[h].bound ==> s.alive)
    ensures Books(ApplyRelease(s, h, pushed))
  {
    var handles := s.world.handles;
    assert (handles - {h}).Keys == handles.Keys - {h};
    assert |handles - {h}| == |handles| - 1;
  }

  lemma FlushConserves(s: State)
    requires Conserved(s) && s.alive
    ensures Conserved(Flush(s))
  {
    FreeIdle(s.idle, s.world.handles, s.world.freed);
    FreeIdleLosesNone(s.idle, s.world.handles, s.world.freed, s.world.nextResource);
  }

  lemma DestroyConserves(s: State)
    requires Conserved(s) && s.alive
    ensures Conserved(ApplyDestroy(s))
  {
    FlushConserves(s);
    UnboundKeepsPlaces([], s.world.handles, s.world.freed + s.idle, s.closers, s.world.nextResource);
  }

  lemma GetConserves(s: State, built: bool)
    requires Conserved(s) && s.alive
    ensures Conserved(ApplyGet(s, built))
  {
    if s.idle == [] {
      CreateOrSuspendConserves(s, built);
    } else {
      PopConserves(s);
      if Stale(s, s.idle[0]) {
        CreateOrSuspendConserves(Pop(s), built);
      }
    }
  }

  lemma ResumeConserves(s: State, t: nat)
    requires Conserved(s) && s.alive && t in s.world.timers
    ensures Conserved(ApplyResume(s, t))
  {
    if s.idle != [] {
      PopConserves(Leave(s, t));
    }
  }

  /** Neither the parameters nor the version are part of the books. */
  lemma ChangeConserves(s: State, param: Param)
    requires Conserved(s) && s.alive
    ensures Conserved(Flush(s.(param := param, version := s.version + 1)))
  {
    FlushConserves(s.(param := param, version := s.version + 1));
  }

  lemma StepConserves(s: State, step: Step)
    requires Conserved(s) && Enabled(s, step)
    ensures Conserved(Apply(s, step))
  {
    match step
    case Get(built) => GetConserves(s, built);
    case Expire(t) =>
    case Resume(t) => ResumeConserves(s, t);
    case Release(h, pushed) => ReleaseConserves(s, h, pushed);
    case ReleaseIdle => FlushConserves(s);
    case SetParam(name, value) =>
      var updated := Updated(s.param, name, value);
      if updated.Some? {
        ChangeConserves(s, updated.value);
      }
    case SetParameter(param) => ChangeConserves(s, param);
    case IncVersion =>
    case Destroy => DestroyConserves(s);
  }

  /** Over every interleaving the counters are exact, the limit holds, and each resource is in exactly one place. */
  lemma {:induction false} PoolConservesResources(states: seq<State>, steps: seq<Step>, n: nat)
    requires IsRun(states, steps) && n < |states|
    ensures Conserved(states[n])
  {
    if n > 0 {
      PoolConservesResources(states, steps, n - 1);
      StepConserves(states[n - 1], steps[n - 1]);
    }
  }

  /**
   * The destructor is meant to unbind every handle from the pool. It misses, and leaves
   * pointing to the dead pool, exactly the handles that were not granted by creation.
   */
  lemma DestroyMissesReusedHandlesIff(states: seq<State>, steps: seq<Step>, n: nat, h: nat)
    requires IsRun(states, steps) && n < |steps| && steps[n] == Destroy && h in states[n].world.handles
    ensures h in states[n + 1].world.handles && !states[n + 1].alive
    ensures states[n + 1].world.handles[h].bound <==> h !in states[n].world.created
  {
    PoolConservesResources(states, steps, n);
  }

  // ----- Waiters -----

  /**
   * The queue holds the waiting timers in the order of their arrival, each once: every
   * pending one, and none that has been cancelled.
   */
  ghost predicate Fifo(ws: seq<nat>, timers: map<nat, Timer>, next: nat) {
    && Increasing(ws)
    && (forall w :: w in ws ==> w in timers && timers[w] != Cancelled)
    && (forall t :: t in timers ==> t < next && (timers[t] == Pending ==> t in ws))
  }

  ghost predicate Increasing(ws: seq<nat>) {
    forall i, j :: 0 <= i < j < |ws| ==> ws[i] < ws[j]
  }

  ghost predicate FifoWaiters(s: State) {
    Fifo(s.waiters, s.world.timers, s.world.nextTimer)
  }

  lemma PrependKeepsOrder(first: nat, rest: seq<nat>)
    requires Increasing(rest) && forall w :: w in rest ==> first < w
    ensures Increasing([first] + rest)
    ensures forall w :: w in [first] + rest <==> w == first || w in rest
  {
    assert forall i :: 0 <= i < |rest| ==> rest[i] in rest;
  }

  lemma {:induction false} FilterKeepsOrder(ws: seq<nat>, t: nat)
    requires Increasing(ws)
    ensures var rest := Filter(ws, t);
            && Increasing(rest)
            && (forall w :: w in rest <==> w in ws && w != t)
  {
    if ws != [] {
      FilterKeepsOrder(ws[1..], t);
      var rest := Filter(ws[1..], t);
      TailKeepsOrder(ws);
      assert forall w :: w in rest ==> ws[0] < w;
      if ws[0] != t {
        PrependKeepsOrder(ws[0], rest);
      } else {
        assert [] + rest == rest;
      }
    }
  }

  lemma TailKeepsOrder(ws: seq<nat>)
    requires Increasing(ws) && ws != []
    ensures Increasing(ws[1..])
    ensures forall w :: w in ws[1..] <==> w in ws && w != ws[0]
    ensures forall w :: w in ws[1..] ==> ws[0] < w
  {
    assert forall w :: w in ws <==> w == ws[0] || w in ws[1..];
  }

  lemma FifoSuspend(ws: seq<nat>, timers: map<nat, Timer>, next: nat)
    requires Fifo(ws, timers, next)
    ensures Fifo(ws + [next], timers[next := Pending], next + 1)
  {
    assert forall w :: w in ws + [next] <==> w in ws || w == next;
    assert forall i :: 0 <= i < |ws| ==> ws[i] in ws;
  }

  /** Leaving removes one timer and keeps the order of the others. */
  lemma LeaveKeepsFifo(s: State, t: nat)
    requires FifoWaiters(s) && t in s.world.timers
    ensures FifoWaiters(Leave(s, t))
    ensures Leave(s, t).waiters == Filter(s.waiters, t)
    ensures forall w :: w in Leave(s, t).waiters <==> w in s.waiters && w != t
  {
    FilterKeepsOrder(s.waiters, t);
    if s.waiters != [] && s.waiters[0] == t {
      TailKeepsOrder(s.waiters);
      FilterAbsent(s.waiters[1..], t);
    }
  }

  lemma {:induction false} FilterAbsent(ws: seq<nat>, t: nat)
    requires t !in ws
    ensures Filter(ws, t) == ws
  {
    if ws != [] {
      FilterAbsent(ws[1..], t);
    }
  }

  lemma WakeOneKeepsFifo(s: State)
    requires FifoWaiters(s)
    ensures FifoWaiters(WakeOne(s))
  {
    if s.waiters != [] {
      TailKeepsOrder(s.waiters);
    }
  }

  lemma CreateOrSuspendKeepsFifo(s: State, built: bool)
    requires FifoWaiters(s)
    ensures FifoWaiters(CreateOrSuspend(s, built))
  {
    FifoSuspend(s.waiters, s.world.timers, s.world.nextTimer);
  }

  lemma GetKeepsFifo(s: State, built: bool)
    requires FifoWaiters(s)
    ensures FifoWaiters(ApplyGet(s, built))
  {
    if s.idle == [] {
      CreateOrSuspendKeepsFifo(s, built);
    } else {
      SameWaitersKeepFifo(s, Pop(s));
      CreateOrSuspendKeepsFifo(Pop(s), built);
    }
  }

  lemma ResumeKeepsFifo(s: State, t: nat)
    requires FifoWaiters(s) && t in s.world.timers
    ensures FifoWaiters(ApplyResume(s, t))
  {
    LeaveKeepsFifo(s, t);
    SameWaitersKeepFifo(Leave(s, t), ApplyResume(s, t));
  }

  lemma StepKeepsFifo(s: State, step: Step)
    requires FifoWaiters(s) && Enabled(s, step)
    ensures FifoWaiters(Apply(s, step))
  {
    match step
    case Get(built) => GetKeepsFifo(s, built);
    case Expire(t) =>
    case Resume(t) => ResumeKeepsFifo(s, t);
    case Release(h, pushed) => ReleaseKeepsFifo(s, h, pushed);
    case _ => SameWaitersKeepFifo(s, Apply(s, step));
  }

  lemma SameWaitersKeepFifo(s: State, t: State)
    requires FifoWaiters(s)
    requires t.waiters == s.waiters && t.world.timers == s.world.timers && t.world.nextTimer == s.world.nextTimer
    ensures FifoWaiters(t)
  {
  }

  lemma ReleaseKeepsFifo(s: State, h: nat, pushed: bool)
    requires FifoWaiters(s) && h in s.world.handles
    ensures FifoWaiters(ApplyRelease(s, h, pushed))
  {
    var r := s.world.handles[h].resource;
    var gone := s.(world := s.world.(handles := s.world.handles - {h}));
    var kept := if pushed then gone.(idle := s.idle + [r], idleCount := s.idleCount + 1) else Discard(gone, r);
    if s.world.handles[h].bound && !Stale(s, r) {
      SameWaitersKeepFifo(s, kept);
      WakeOneKeepsFifo(kept);
      SameWaitersKeepFifo(WakeOne(kept), ApplyRelease(s, h, pushed));
    } else {
      SameWaitersKeepFifo(s, ApplyRelease(s, h, pushed));
    }
  }

  lemma {:induction false} WaitersStayInOrder(states: seq<State>, steps: seq<Step>, n: nat)
    requires IsRun(states, steps) && n < |states|
    ensures FifoWaiters(states[n])
  {
    if n > 0 {
      WaitersStayInOrder(states, steps, n - 1);
      StepKeepsFifo(states[n - 1], steps[n - 1]);
    }
  }

  // ----- Versions -----

  ghost predicate Fresh(s: State) {
    && (forall i :: 0 <= i < |s.idle| ==> 0 <= s.idle[i].version <= s.version && s.idle[i].param == s.param)
    && (forall h :: h in s.world.handles ==>
          var r := s.world.handles[h].resource;
          0 <= r.version <= s.version && (r.version == s.version ==> r.param == s.param))
    && 0 <= s.version && (!s.versioned ==> s.version == 0)
  }

  lemma PopKeepsFresh(s: State)
    requires Fresh(s)
    ensures s.idle != [] ==> Fresh(Pop(s))
  {
  }

  lemma CreateOrSuspendKeepsFresh(s: State, built: bool)
    requires Fresh(s)
    ensures Fresh(CreateOrSuspend(s, built))
  {
  }

  lemma ReleaseKeepsFresh(s: State, h: nat, t: State)
    requires Fresh(s) && h in s.world.handles && Released(s, h, t)
    ensures Fresh(t)
  {
  }

  lemma ChangeKeepsFresh(s: State, param: Param)
    requires Fresh(s) && s.versioned
    ensures Fresh(Flush(s.(param := param, version := s.version + 1)))
  {
  }

  lemma DestroyKeepsFresh(s: State)
    requires Fresh(s)
    ensures Fresh(ApplyDestroy(s))
  {
  }

  lemma StepKeepsFresh(s: State, step: Step)
    requires Fresh(s) && Enabled(s, step)
    ensures Fresh(Apply(s, step))
  {
    match step
    case Get(built) =>
      PopKeepsFresh(s);
      CreateOrSuspendKeepsFresh(if s.idle == [] then s else Pop(s), built);
    case Resume(t) => PopKeepsFresh(Leave(s, t));
    case Release(h, pushed) =>
      ReleaseShape(s, h, pushed);
      ReleaseKeepsFresh(s, h, Apply(s, step));
    case SetParam(name, value) =>
      if Updated(s.param, name, value).Some? {
        ChangeKeepsFresh(s, Updated(s.param, name, value).value);
      }
    case SetParameter(param) => ChangeKeepsFresh(s, param);
    case Destroy => DestroyKeepsFresh(s);
    case _ =>
  }

  lemma {:induction false} ParametersStayFresh(states: seq<State>, steps: seq<Step>, n: nat)
    requires IsRun(states, steps) && n < |states|
    ensures Fresh(states[n])
  {
    if n > 0 {
      ParametersStayFresh(states, steps, n - 1);
      StepKeepsFresh(states[n - 1], steps[n - 1]);
    }
  }

  /** In any run, even after incVersion, a granted resource has the pool's version and its current parameters. */
  lemma GrantsAreCurrent(states: seq<State>, steps: seq<Step>, n: nat)
    requires IsRun(states, steps) && n < |steps| && OutcomeOf(states[n], steps[n]).Granted?
    ensures var h, s, t := OutcomeOf(states[n], steps[n]).handle, states[n], states[n + 1];
            && h !in s.world.handles && h in t.world.handles
            && t.world.handles[h].resource.version == s.version == t.version
            && t.world.handles[h].resource.param == s.param == t.param
  {
    ParametersStayFresh(states, steps, n);
    PoolConservesResources(states, steps, n);
    GrantIsCurrent(states[n], steps[n]);
  }

  lemma GrantIsCurrent(s: State, step: Step)
    requires Enabled(s, step) && OutcomeOf(s, step).Granted?
    requires Fresh(s)
    ensures var h, t := s.world.nextHandle, Apply(s, step);
            && OutcomeOf(s, step).handle == h && h in t.world.handles
            && t.world.handles[h].resource.version == s.version == t.version
            && t.world.handles[h].resource.param == s.param == t.param
  {
  }

  // ----- Longer runs -----

  /** One more step at the end of a run. */
  lemma Extend(states: seq<State>, steps: seq<Step>, step: Step) returns (longer: seq<State>, more: seq<Step>)
    requires IsRun(states, steps) && Enabled(states[|steps|], step)
    ensures IsRun(longer, more) && more == steps + [step]
    ensures |longer| == |states| + 1 && longer[..|states|] == states
    ensures longer[|states|] == Apply(states[|steps|], step)
  {
    longer, more := states + [Apply(states[|steps|], step)], steps + [step];
    forall i | 0 <= i < |more|
      ensures Enabled(longer[i], more[i]) && longer[i + 1] == Apply(longer[i], more[i])
    {
      assert i < |steps| ==> longer[i] == states[i] && longer[i + 1] == states[i + 1] && more[i] == steps[i];
    }
  }

  /** A resource that is returned and granted again keeps pointing to the pool after its destruction. */
  lemma DestroyMayMissHandle(param: Param) returns (states: seq<State>, steps: seq<Step>)
    ensures IsRun(states, steps) && steps == [Get(true), Release(0, true), Get(true), Destroy]
    ensures !states[4].alive && 1 in states[4].world.handles && states[4].world.handles[1].bound
  {
    states, steps := [Initial(false, param, 1)], [];
    states, steps := Extend(states, steps, Get(true));
    states, steps := Extend(states, steps, Release(0, true));
    states, steps := Extend(states, steps, Get(true));
    states, steps := Extend(states, steps, Destroy);
  }
}
