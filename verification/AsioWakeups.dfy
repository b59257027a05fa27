/**
 * Wakeups in the coroutine pools: when a woken waiter finds the resource it was woken for,
 * and when an idle resource has somebody on the way to it.
 */
module AsioWakeups {
  import opened Common
  import opened Resources
  import opened AsioPoolSystem

  /** The waiters that have been woken but have not yet run again. */
  function Woken(timers: map<nat, Timer>): set<nat> {
    set t | t in timers && timers[t] == Cancelled
  }

  ghost predicate SomePending(timers: map<nat, Timer>) {
    exists t :: t in timers && timers[t] == Pending
  }

  lemma WokenAfterChange(timers: map<nat, Timer>, t: nat, to: Timer)
    ensures to == Cancelled ==> Woken(timers[t := to]) == Woken(timers) + {t}
    ensures to != Cancelled ==> Woken(timers[t := to]) == Woken(timers) - {t}
    ensures Woken(timers - {t}) == Woken(timers) - {t}
  {
  }

  // ----- What the steps do to idle queue and timers -----

  /** A returned resource wakes the first waiter unless the resource is stale or the waiter has just expired. */
  ghost predicate Wakes(s: State, h: nat) {
    && h in s.world.handles && s.world.handles[h].bound && !Stale(s, s.world.handles[h].resource)
    && s.waiters != [] && s.waiters[0] in s.world.timers && s.world.timers[s.waiters[0]] == Pending
  }

  predicate Keeps(s: State, h: nat, pushed: bool)
    requires h in s.world.handles
  {
    pushed && s.world.handles[h].bound && !Stale(s, s.world.handles[h].resource)
  }

  lemma ReturnWakesFirstWaiterIff(s: State, h: nat, pushed: bool)
    requires FifoWaiters(s) && s.waiters != [] && h in s.world.handles
    ensures var first, after := s.waiters[0], ApplyRelease(s, h, pushed);
            && first in s.world.timers && first in after.world.timers
            && (after.world.timers[first] == Cancelled <==> Wakes(s, h))
  {
    assert s.waiters[0] in s.waiters;
  }

  lemma ReleaseTimers(s: State, h: nat, pushed: bool)
    requires h in s.world.handles && FifoWaiters(s)
    ensures var t := ApplyRelease(s, h, pushed);
            && t.versioned == s.versioned && t.version == s.version
            && t.world.timers == if Wakes(s, h) then s.world.timers[s.waiters[0] := Cancelled] else s.world.timers
  {
    assert s.waiters != [] ==> s.waiters[0] in s.waiters;
  }

  lemma ReleaseIdleQueue(s: State, h: nat, pushed: bool)
    requires h in s.world.handles
    ensures ApplyRelease(s, h, pushed).idle
         == if Keeps(s, h, pushed) then s.idle + [s.world.handles[h].resource] else s.idle
  {
  }

  lemma ReleaseWoken(s: State, h: nat, pushed: bool)
    requires h in s.world.handles && FifoWaiters(s)
    ensures |Woken(ApplyRelease(s, h, pushed).world.timers)| == |Woken(s.world.timers)| + if Wakes(s, h) then 1 else 0
    ensures Wakes(s, h) ==> SomePending(s.world.timers)
  {
    ReleaseTimers(s, h, pushed);
    if Wakes(s, h) {
      WokenAfterChange(s.world.timers, s.waiters[0], Cancelled);
    }
  }

  lemma CreateOrSuspendEffect(s: State, built: bool)
    requires FifoWaiters(s)
    ensures var t := CreateOrSuspend(s, built);
            && t.idle == s.idle && t.versioned == s.versioned && t.version == s.version
            && Woken(t.world.timers) == Woken(s.world.timers)
  {
    WokenAfterChange(s.world.timers, s.world.nextTimer, Pending);
  }

  lemma PopEffect(s: State)
    requires s.idle != []
    ensures var t := Pop(s);
            && t.idle == s.idle[1..] && t.versioned == s.versioned && t.version == s.version
            && t.waiters == s.waiters && t.world.timers == s.world.timers && t.world.nextTimer == s.world.nextTimer
  {
  }

  lemma GetEffect(s: State, built: bool)
    requires FifoWaiters(s)
    ensures var t := ApplyGet(s, built);
            && t.idle == (if s.idle == [] then [] else s.idle[1..])
            && Woken(t.world.timers) == Woken(s.world.timers)
            && t.versioned == s.versioned && t.version == s.version
  {
    if s.idle == [] {
      CreateOrSuspendEffect(s, built);
    } else {
      PopEffect(s);
      CreateOrSuspendEffect(Pop(s), built);
    }
  }

  lemma ResumeEffect(s: State, t: nat)
    requires t in s.world.timers
    ensures var after, woken := ApplyResume(s, t), s.world.timers[t] == Cancelled;
            && after.idle == (if woken && s.idle != [] then s.idle[1..] else s.idle)
            && after.world.timers == s.world.timers - {t}
            && Woken(after.world.timers) == Woken(s.world.timers) - {t}
            && |Woken(after.world.timers)| == |Woken(s.world.timers)| - (if woken then 1 else 0)
            && after.versioned == s.versioned && after.version == s.version && after.alive == s.alive
  {
    WokenAfterChange(s.world.timers, t, Expired);
  }

  // ----- Woken waiters -----

  /** The first n idle resources may be granted as they are. */
  ghost predicate Serves(s: State, n: nat) {
    n <= |s.idle| && forall i :: 0 <= i < n ==> !Stale(s, s.idle[i])
  }

  /** There is a resource for every woken waiter; see CoveredIffAllServed. */
  ghost predicate Covered(s: State) {
    Serves(s, |Woken(s.world.timers)|)
  }

  /** The given waiters resume one after another, and each is granted a resource. */
  ghost predicate AllServed(s: State, order: seq<nat>)
    decreases |order|
  {
    order == [] ||
    (&& Enabled(s, Resume(order[0])) && OutcomeOf(s, Resume(order[0])).Granted?
     && AllServed(Apply(s, Resume(order[0])), order[1..]))
  }

  lemma ServedOneByOne(s: State, order: seq<nat>)
    requires s.alive && order != []
    requires order[0] in s.world.timers && s.world.timers[order[0]] == Cancelled
    ensures var granted := OutcomeOf(s, Resume(order[0])).Granted?;
            && (granted <==> s.idle != [] && !Stale(s, s.idle[0]))
            && (granted ==> (Serves(s, |order|) <==> Serves(ApplyResume(s, order[0]), |order| - 1)))
            && (!granted ==> !Serves(s, |order|))
  {
    ResumeEffect(s, order[0]);
    if s.idle != [] && !Stale(s, s.idle[0]) {
      ServesTail(s, ApplyResume(s, order[0]), |order| - 1);
    }
  }

  lemma ServesTail(s: State, t: State, n: nat)
    requires s.idle != [] && !Stale(s, s.idle[0])
    requires t.idle == s.idle[1..] && t.versioned == s.versioned && t.version == s.version
    ensures Serves(s, n + 1) <==> Serves(t, n)
  {
    if Serves(t, n) {
      assert forall i :: 0 < i < n + 1 ==> s.idle[i] == t.idle[i - 1];
    }
    if Serves(s, n + 1) {
      assert forall i :: 0 <= i < n ==> t.idle[i] == s.idle[i + 1];
    }
  }

  lemma {:induction false} ServedIff(s: State, order: seq<nat>)
    requires s.alive
    requires forall i :: 0 <= i < |order| ==> order[i] in s.world.timers && s.world.timers[order[i]] == Cancelled
    requires forall i, j :: 0 <= i < j < |order| ==> order[i] != order[j]
    ensures AllServed(s, order) <==> Serves(s, |order|)
    decreases |order|
  {
    if order != [] {
      ServedOneByOne(s, order);
      ResumeEffect(s, order[0]);
      if OutcomeOf(s, Resume(order[0])).Granted? {
        ServedIff(ApplyResume(s, order[0]), order[1..]);
      }
    }
  }

  lemma {:induction false} SizeOfOrder(order: seq<nat>, all: set<nat>)
    requires forall i, j :: 0 <= i < j < |order| ==> order[i] != order[j]
    requires forall t :: t in order <==> t in all
    ensures |all| == |order|
  {
    if order == [] {
      assert all == {};
    } else {
      assert forall i :: 0 <= i < |order[1..]| ==> order[1..][i] == order[i + 1];
      assert forall t :: t in order <==> t == order[0] || t in order[1..];
      SizeOfOrder(order[1..], all - {order[0]});
    }
  }

  /** The woken waiters are covered exactly when they all get a resource if they resume now, in whatever order. */
  lemma CoveredIffAllServed(s: State, order: seq<nat>)
    requires s.alive
    requires forall i, j :: 0 <= i < j < |order| ==> order[i] != order[j]
    requires forall t :: t in order <==> t in Woken(s.world.timers)
    ensures Covered(s) <==> AllServed(s, order)
  {
    SizeOfOrder(order, Woken(s.world.timers));
    assert forall i :: 0 <= i < |order| ==> order[i] in order;
    ServedIff(s, order);
  }

  predicate Changes(s: State, name: string, value: Value) {
    Updated(s.param, name, value).Some? && !(name in s.param && s.param[name] == value)
  }

  /**
   * The steps that leave too few resources for the woken waiters: another get that takes one,
   * a wakeup with nothing new to grant or with a stale resource in the way, a flush, and a
   * change of version.
   */
  ghost predicate Takes(s: State, step: Step) {
    var woken := |Woken(s.world.timers)|;
    match step
    case Get(_) => woken > 0 && (|s.idle| <= woken || Stale(s, s.idle[woken]))
    case Release(h, pushed) =>
      Wakes(s, h) && if |s.idle| <= woken then !pushed else Stale(s, s.idle[woken])
    case ReleaseIdle => woken > 0
    case SetParam(name, value) => woken > 0 && Changes(s, name, value)
    case SetParameter(_) => woken > 0
    case IncVersion => woken > 0
    case _ => false
  }

  lemma GetCoversIff(s: State, built: bool)
    requires FifoWaiters(s) && Covered(s)
    ensures Covered(ApplyGet(s, built)) <==> !Takes(s, Get(built))
  {
    GetEffect(s, built);
    var n := |Woken(s.world.timers)|;
    if n > 0 {
      ServesTail(s, ApplyGet(s, built), n);
      ServesOneMore(s, n);
    }
  }

  lemma ServesOneMore(s: State, n: nat)
    requires Serves(s, n)
    ensures Serves(s, n + 1) <==> |s.idle| > n && !Stale(s, s.idle[n])
  {
  }

  lemma ReleaseCoversIff(s: State, h: nat, pushed: bool)
    requires FifoWaiters(s) && Covered(s) && h in s.world.handles
    ensures Covered(ApplyRelease(s, h, pushed)) <==> !Takes(s, Release(h, pushed))
  {
    ReleaseWoken(s, h, pushed);
    ReleaseTimers(s, h, pushed);
    ReleaseIdleQueue(s, h, pushed);
    var n, t := |Woken(s.world.timers)|, ApplyRelease(s, h, pushed);
    ServesLonger(s, t, n);
    if Wakes(s, h) {
      ServesOneMore(t, n);
    }
  }

  lemma ServesLonger(s: State, t: State, n: nat)
    requires Serves(s, n) && s.idle <= t.idle && t.versioned == s.versioned && t.version == s.version
    ensures Serves(t, n)
  {
  }

  lemma ResumeKeepsCovered(s: State, t: nat)
    requires Covered(s) && t in s.world.timers
    ensures Covered(ApplyResume(s, t))
  {
    ResumeEffect(s, t);
    if s.world.timers[t] == Cancelled {
      assert t in Woken(s.world.timers);
      ServesTail(s, ApplyResume(s, t), |Woken(s.world.timers)| - 1);
    }
  }

  lemma SomeWoken(s: State)
    ensures Covered(s) && |Woken(s.world.timers)| > 0 ==> s.idle != []
  {
  }

  lemma FlushCoversIff(s: State)
    ensures Covered(Flush(s)) <==> |Woken(s.world.timers)| == 0
  {
  }

  lemma SetParamCoversIff(s: State, name: string, value: Value)
    requires Covered(s)
    ensures Covered(ApplySetParam(s, name, value)) <==> !Takes(s, SetParam(name, value))
  {
    if Changes(s, name, value) {
      FlushCoversIff(s.(param := Updated(s.param, name, value).value, version := s.version + 1));
    }
  }

  lemma ExpireKeepsCovered(s: State, t: nat)
    requires Covered(s) && t in s.world.timers && s.world.timers[t] == Pending
    ensures Covered(s.(world := s.world.(timers := s.world.timers[t := Expired])))
  {
    WokenAfterChange(s.world.timers, t, Expired);
    assert t !in Woken(s.world.timers);
  }

  lemma DestroyKeepsCovered(s: State)
    requires s.world.timers == map[]
    ensures Covered(ApplyDestroy(s))
  {
    assert Woken(s.world.timers) == {};
  }

  lemma StepCoversIff(s: State, step: Step)
    requires FifoWaiters(s) && Fresh(s) && Covered(s) && Enabled(s, step)
    ensures Covered(Apply(s, step)) <==> !Takes(s, step)
  {
    match step
    case Get(built) => GetCoversIff(s, built);
    case Expire(t) => ExpireKeepsCovered(s, t);
    case Resume(t) => ResumeKeepsCovered(s, t);
    case Release(h, pushed) => ReleaseCoversIff(s, h, pushed);
    case ReleaseIdle => FlushCoversIff(s);
    case SetParam(name, value) => SetParamCoversIff(s, name, value);
    case SetParameter(param) => FlushCoversIff(s.(param := param, version := s.version + 1));
    case IncVersion => VersionCoversIff(s);
    case Destroy => DestroyKeepsCovered(s);
  }

  lemma VersionCoversIff(s: State)
    requires Fresh(s) && Covered(s) && s.versioned
    ensures Covered(s.(version := s.version + 1)) <==> |Woken(s.world.timers)| == 0
  {
    SomeWoken(s);
    if |Woken(s.world.timers)| > 0 {
      assert Stale(s.(version := s.version + 1), s.idle[0]);
    }
  }

  lemma RunCoversIff(states: seq<State>, steps: seq<Step>, n: nat)
    requires IsRun(states, steps) && n < |steps|
    ensures Covered(states[n]) ==> (Covered(states[n + 1]) <==> !Takes(states[n], steps[n]))
  {
    WaitersStayInOrder(states, steps, n);
    ParametersStayFresh(states, steps, n);
    var s, step := states[n], steps[n];
    if Covered(s) {
      StepCoversIff(s, step);
    }
    assert states[n + 1] == Apply(s, step);
  }

  /**
   * The code takes for granted that a woken waiter gets a resource. In every run of either
   * pool, all woken waiters have been covered up to some state exactly when none of the
   * steps so far takes a resource from them.
   */
  lemma {:induction false} WokenWaitersAreServedIff(states: seq<State>, steps: seq<Step>, n: nat)
    requires IsRun(states, steps) && n < |states|
    ensures (forall k :: 0 <= k <= n ==> Covered(states[k]))
            <==> (forall i :: 0 <= i < n ==> !Takes(states[i], steps[i]))
  {
    if n > 0 {
      WokenWaitersAreServedIff(states, steps, n - 1);
      RunCoversIff(states, steps, n - 1);
    } else {
      assert Woken(states[0].world.timers) == {};
    }
  }

  // ----- Idle resources -----

  /** While somebody waits, no more resources are idle than there are woken waiters to take them. */
  ghost predicate NoLostWakeup(s: State) {
    SomePending(s.world.timers) ==> |s.idle| <= |Woken(s.world.timers)|
  }

  /** The wakeup for a kept resource goes to a waiter that has just expired, while another one waits. */
  ghost predicate Swallows(s: State, step: Step) {
    match step
    case Release(h, pushed) =>
      && h in s.world.handles && Keeps(s, h, pushed)
      && s.waiters != [] && s.waiters[0] in s.world.timers && s.world.timers[s.waiters[0]] == Expired
      && SomePending(s.world.timers) && |s.idle| == |Woken(s.world.timers)|
    case _ => false
  }

  lemma GetKeepsWakeups(s: State, built: bool)
    requires FifoWaiters(s) && Books(s) && s.alive && NoLostWakeup(s)
    ensures NoLostWakeup(ApplyGet(s, built))
  {
    GetEffect(s, built);
    if s.idle != [] {
      assert ApplyGet(s, built).world.timers == s.world.timers;
    }
  }

  lemma ResumeKeepsWakeups(s: State, t: nat)
    requires NoLostWakeup(s) && t in s.world.timers && s.world.timers[t] != Pending
    ensures NoLostWakeup(ApplyResume(s, t))
  {
    ResumeEffect(s, t);
    PendingElsewhere(s.world.timers, t, Expired);
  }

  lemma PendingElsewhere(timers: map<nat, Timer>, t: nat, to: Timer)
    ensures SomePending(timers - {t}) ==> SomePending(timers)
    ensures to != Pending && SomePending(timers[t := to]) ==> SomePending(timers)
  {
    if SomePending(timers - {t}) {
      var u :| u in timers - {t} && (timers - {t})[u] == Pending;
      assert timers[u] == Pending;
    }
    if to != Pending && SomePending(timers[t := to]) {
      var u :| u in timers[t := to] && timers[t := to][u] == Pending;
      assert timers[u] == Pending;
    }
  }

  /** In a queue in order a pending timer waits, so that somebody is first. */
  lemma PendingMeansWaiters(s: State)
    requires FifoWaiters(s)
    ensures SomePending(s.world.timers) ==> s.waiters != []
    ensures s.waiters != [] ==> s.waiters[0] in s.world.timers && s.world.timers[s.waiters[0]] != Cancelled
  {
    assert s.waiters != [] ==> s.waiters[0] in s.waiters;
  }

  lemma ReleaseKeepsWakeupsIff(s: State, h: nat, pushed: bool)
    requires FifoWaiters(s) && NoLostWakeup(s) && h in s.world.handles
    ensures NoLostWakeup(ApplyRelease(s, h, pushed)) <==> !Swallows(s, Release(h, pushed))
  {
    ReleaseWoken(s, h, pushed);
    ReleaseTimers(s, h, pushed);
    ReleaseIdleQueue(s, h, pushed);
    PendingMeansWaiters(s);
    if Wakes(s, h) {
      PendingElsewhere(s.world.timers, s.waiters[0], Cancelled);
    }
  }

  lemma StepKeepsWakeupsIff(s: State, step: Step)
    requires FifoWaiters(s) && Books(s) && NoLostWakeup(s) && Enabled(s, step)
    ensures NoLostWakeup(Apply(s, step)) <==> !Swallows(s, step)
  {
    match step
    case Get(built) => GetKeepsWakeups(s, built);
    case Expire(t) =>
      WokenAfterChange(s.world.timers, t, Expired);
      PendingElsewhere(s.world.timers, t, Expired);
    case Resume(t) => ResumeKeepsWakeups(s, t);
    case Release(h, pushed) => ReleaseKeepsWakeupsIff(s, h, pushed);
    case _ =>
  }

  lemma RunKeepsWakeupsIff(states: seq<State>, steps: seq<Step>, n: nat)
    requires IsRun(states, steps) && n < |steps|
    ensures NoLostWakeup(states[n]) ==> (NoLostWakeup(states[n + 1]) <==> !Swallows(states[n], steps[n]))
  {
    WaitersStayInOrder(states, steps, n);
    PoolConservesResources(states, steps, n);
    var s, step := states[n], steps[n];
    if NoLostWakeup(s) {
      StepKeepsWakeupsIff(s, step);
    }
    assert states[n + 1] == Apply(s, step);
  }

  /**
   * In every run of either pool: up to some state no idle resource has lain beside a pending
   * waiter without a woken one on its way, exactly when no wakeup so far was swallowed by an
   * expired waiter.
   */
  lemma {:induction false} NoWakeupIsLostIff(states: seq<State>, steps: seq<Step>, n: nat)
    requires IsRun(states, steps) && n < |states|
    ensures (forall k :: 0 <= k <= n ==> NoLostWakeup(states[k]))
            <==> (forall i :: 0 <= i < n ==> !Swallows(states[i], steps[i]))
  {
    if n > 0 {
      NoWakeupIsLostIff(states, steps, n - 1);
      RunKeepsWakeupsIff(states, steps, n - 1);
    }
  }

  // ----- Runs in which a wakeup is of no use -----

  /** A run in which the one resource the pool may have is handed out and the next get waits. */
  lemma OneWaiting(param: Param) returns (states: seq<State>, steps: seq<Step>)
    ensures IsRun(states, steps) && steps == [Get(true), Get(true)]
    ensures states[2] == Suspend(Create(Initial(false, param, 1)))
  {
    states, steps := [Initial(false, param, 1)], [];
    states, steps := Extend(states, steps, Get(true));
    states, steps := Extend(states, steps, Get(true));
  }

  /** One other get between wakeup and resumption is enough to leave the woken waiter with nothing. */
  lemma WokenWaiterMayFindNothing(param: Param) returns (states: seq<State>, steps: seq<Step>)
    ensures IsRun(states, steps) && |steps| == 5 && steps[4].Resume?
    ensures states[4].world.timers[steps[4].timer] == Cancelled
    ensures OutcomeOf(states[4], steps[4]) == NothingAfterWakeup
  {
    states, steps := OneWaiting(param);
    states, steps := Extend(states, steps, Release(0, true));
    states, steps := Extend(states, steps, Get(true));
    states, steps := Extend(states, steps, Resume(0));
  }

  /** A wakeup spent on a waiter that has just expired leaves the next one asleep beside an idle resource. */
  lemma ExpiredWaiterSwallowsWakeup(param: Param) returns (states: seq<State>, steps: seq<Step>)
    ensures IsRun(states, steps) && |steps| == 5
    ensures states[5].idle != [] && Woken(states[5].world.timers) == {}
    ensures 1 in states[5].world.timers && states[5].world.timers[1] == Pending
  {
    states, steps := OneWaiting(param);
    states, steps := Extend(states, steps, Get(true));
    states, steps := Extend(states, steps, Expire(0));
    states, steps := Extend(states, steps, Release(0, true));
  }
}
