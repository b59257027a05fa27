/** What becomes of a timer that its user has removed. */
module TimerRemoval {
  import opened Common
  import opened TimerSchedule
  import opened TimerSystem

  /** The detector takes entry e off the queue because it is due. */
  ghost predicate Pops(s: State, step: Step, e: Entry) {
    step.Detect? && step.top < |s.queue| && s.queue[step.top] == e && e.time <= step.now
  }

  /** The queue is emptied by a stop, or built anew by a start. */
  predicate Clears(s: State, step: Step) {
    (step.Stop? && s.running) || (step.Start? && !s.running)
  }

  /** Between states m and n the detector pops e before the queue is cleared. */
  ghost predicate Popped(states: seq<State>, steps: seq<Step>, m: nat, n: nat, e: Entry)
    requires |states| == |steps| + 1 && n < |states|
  {
    exists i :: m <= i < n && Pops(states[i], steps[i], e) && Uncleared(states, steps, m, i)
  }

  ghost predicate Uncleared(states: seq<State>, steps: seq<Step>, m: nat, n: nat)
    requires |states| == |steps| + 1 && n < |states|
  {
    forall j :: m <= j < n ==> !Clears(states[j], steps[j])
  }

  /** A removed timer that still has its entry in the queue. */
  ghost predicate Waiting(s: State, task: nat, e: Entry) {
    && task < |s.h.asked| && e in s.queue
    && e.id in s.timers && s.timers[e.id].task == task && s.timers[e.id].left == 0
  }

  /** A timer that is in the queue no more, and in the table at most as a removed one. */
  ghost predicate Gone(s: State, task: nat) {
    && task < |s.h.asked|
    && (forall id :: id in s.timers && s.timers[id].task == task ==> s.timers[id].left == 0)
    && (forall i :: 0 <= i < |s.queue| && s.queue[i].id in s.timers ==> s.timers[s.queue[i].id].task != task)
  }

  // ----- Steps -----

  lemma FiresOfOther(s: State, top: nat, again: Time, after: State, task: nat)
    requires top < |s.queue| && s.queue[top].id in s.timers && Submitted(s, top, again, after)
    ensures Fires(after.h.fires, task)
         == Fires(s.h.fires, task) + if s.timers[s.queue[top].id].task == task then 1 else 0
  {
    var e := s.queue[top];
    FiresOfAppend(s.h.fires, Fire(s.timers[e.id].task, e.time, again), task);
  }

  lemma SubmitKeepsGone(s: State, top: nat, again: Time, after: State, task: nat)
    requires QueueInv(s) && Gone(s, task) && top < |s.queue| && Submitted(s, top, again, after)
    requires forall id :: id in after.timers && id != s.queue[top].id ==> after.timers[id] == s.timers[id]
    ensures Gone(after, task) && Fires(after.h.fires, task) == Fires(s.h.fires, task)
  {
    FiresOfOther(s, top, again, after, task);
    PopKeepsEntries(s.queue, top);
  }

  lemma StepKeepsGone(s: State, step: Step, task: nat)
    requires QueueInv(s) && Gone(s, task) && Enabled(s, step)
    ensures var after := Apply(s, step); Gone(after, task) && Fires(after.h.fires, task) == Fires(s.h.fires, task)
  {
    match step
    case Detect(now, again, top) =>
      if s.queue != [] && s.queue[top].time <= now {
        SubmitShape(s, now, again, top);
        SubmitKeepsGone(s, top, again, Apply(s, step), task);
      }
    case Add(plan, repeat, now, id) => AddKeepsGone(s, plan, repeat, now, id, task);
    case Start(readings, rebuilt) =>
      if !s.running {
        StartKeepsGone(s, readings, rebuilt, task);
      }
    case _ =>
  }

  lemma StartKeepsGone(s: State, readings: map<int, Time>, rebuilt: seq<Entry>, task: nat)
    requires Gone(s, task) && !s.running && Enabled(s, Start(readings, rebuilt))
    ensures Gone(ApplyStart(s, readings, rebuilt), task)
  {
  }

  lemma AddKeepsGone(s: State, plan: Plan, repeat: int, now: Time, id: int, task: nat)
    requires QueueInv(s) && Gone(s, task) && Enabled(s, Add(plan, repeat, now, id))
    ensures Gone(ApplyAdd(s, plan, repeat, now, id), task)
    ensures ApplyAdd(s, plan, repeat, now, id).h.fires == s.h.fires
  {
  }

  /** The removed timer's own entry: submitted, and not queued again. */
  lemma PopOfRemoved(s: State, top: nat, again: Time, task: nat)
    requires QueueInv(s) && TaskInv(s) && top < |s.queue| && Waiting(s, task, s.queue[top])
    ensures var after := Submit(s.(queue := Without(s.queue, top)), s.queue[top], again);
            Gone(after, task) && Fires(after.h.fires, task) == Fires(s.h.fires, task) + 1
  {
    var e := s.queue[top];
    FiresOfAppend(s.h.fires, Fire(task, e.time, again), task);
    PopKeepsEntries(s.queue, top);
  }

  lemma PopOfOther(s: State, top: nat, again: Time, after: State, task: nat, e: Entry)
    requires QueueInv(s) && TaskInv(s) && Waiting(s, task, e)
    requires top < |s.queue| && s.queue[top] != e && Submitted(s, top, again, after)
    requires forall id :: id in s.timers && id != s.queue[top].id ==>
               id in after.timers && after.timers[id] == s.timers[id]
    ensures Waiting(after, task, e) && Fires(after.h.fires, task) == Fires(s.h.fires, task)
  {
    var i :| 0 <= i < |s.queue| && s.queue[i] == e;
    PopKeepsEntries(s.queue, top);
    assert Without(s.queue, top)[if i < top then i else i - 1] == e;
    assert e.id != s.queue[top].id;
    FiresOfOther(s, top, again, after, task);
  }

  lemma DetectOfWaiting(s: State, step: Step, task: nat, e: Entry)
    requires QueueInv(s) && TaskInv(s) && Waiting(s, task, e) && Enabled(s, step) && step.Detect?
    ensures var after := Apply(s, step);
            if Pops(s, step, e) then
              Gone(after, task) && Fires(after.h.fires, task) == Fires(s.h.fires, task) + 1
            else
              Waiting(after, task, e) && Fires(after.h.fires, task) == Fires(s.h.fires, task)
  {
    if s.queue[step.top].time <= step.now {
      if s.queue[step.top] == e {
        PopOfRemoved(Entered(s), step.top, step.again, task);
      } else {
        DetectOfOther(s, step, task, e);
      }
    }
  }

  lemma DetectOfOther(s: State, step: Step, task: nat, e: Entry)
    requires QueueInv(s) && TaskInv(s) && Waiting(s, task, e) && Enabled(s, step) && step.Detect?
    requires s.queue[step.top].time <= step.now && s.queue[step.top] != e
    ensures Waiting(Apply(s, step), task, e) && Fires(Apply(s, step).h.fires, task) == Fires(s.h.fires, task)
  {
    SubmitShape(s, step.now, step.again, step.top);
    SubmitLeavesOthers(Entered(s), step.top, step.again);
    PopOfOther(s, step.top, step.again, Apply(s, step), task, e);
  }

  lemma SubmitLeavesOthers(s: State, top: nat, again: Time)
    requires top < |s.queue| && s.queue[top].id in s.timers
    ensures var after := Submit(s.(queue := Without(s.queue, top)), s.queue[top], again);
            forall id :: id in s.timers && id != s.queue[top].id ==>
              id in after.timers && after.timers[id] == s.timers[id]
  {
  }

  lemma AddKeepsWaiting(s: State, plan: Plan, repeat: int, now: Time, id: int, task: nat, e: Entry)
    requires Waiting(s, task, e) && Enabled(s, Add(plan, repeat, now, id))
    ensures Waiting(ApplyAdd(s, plan, repeat, now, id), task, e)
  {
  }

  lemma ClearOfWaiting(s: State, step: Step, task: nat, e: Entry)
    requires QueueInv(s) && TaskInv(s) && Waiting(s, task, e) && Enabled(s, step) && Clears(s, step)
    ensures Gone(Apply(s, step), task)
  {
  }

  lemma StepOfWaiting(s: State, step: Step, task: nat, e: Entry)
    requires QueueInv(s) && TaskInv(s) && Waiting(s, task, e) && Enabled(s, step)
    ensures var after := Apply(s, step);
            && Fires(after.h.fires, task) == Fires(s.h.fires, task) + (if Pops(s, step, e) then 1 else 0)
            && (if Pops(s, step, e) || Clears(s, step) then Gone(after, task) else Waiting(after, task, e))
  {
    match step
    case Add(plan, repeat, now, id) => AddKeepsWaiting(s, plan, repeat, now, id, task, e);
    case Detect(_, _, _) => DetectOfWaiting(s, step, task, e);
    case _ =>
      if Clears(s, step) {
        ClearOfWaiting(s, step, task, e);
      }
  }

  // ----- Runs -----

  lemma PoppedByNow(states: seq<State>, steps: seq<Step>, m: nat, n: nat, e: Entry)
    requires |states| == |steps| + 1 && m <= n < |steps|
    ensures Popped(states, steps, m, n + 1, e)
            <==> Popped(states, steps, m, n, e) || (Pops(states[n], steps[n], e) && Uncleared(states, steps, m, n))
    ensures Uncleared(states, steps, m, n + 1) <==> Uncleared(states, steps, m, n) && !Clears(states[n], steps[n])
  {
  }

  /** The three things that can have become of a removed timer that was queued. */
  ghost predicate Phase(states: seq<State>, steps: seq<Step>, m: nat, n: nat, task: nat, e: Entry)
    requires |states| == |steps| + 1 && m <= n < |states|
  {
    var before, now := Fires(states[m].h.fires, task), Fires(states[n].h.fires, task);
    if Popped(states, steps, m, n, e) then now == before + 1 && Gone(states[n], task)
    else if Uncleared(states, steps, m, n) then now == before && Waiting(states[n], task, e)
    else now == before && Gone(states[n], task)
  }

  /** What one step makes of a removed timer. */
  ghost predicate Moves(s: State, step: Step, after: State, task: nat, e: Entry) {
    && (Gone(s, task) ==> Gone(after, task) && Fires(after.h.fires, task) == Fires(s.h.fires, task))
    && (Waiting(s, task, e) ==>
          && Fires(after.h.fires, task) == Fires(s.h.fires, task) + (if Pops(s, step, e) then 1 else 0)
          && (if Pops(s, step, e) || Clears(s, step) then Gone(after, task) else Waiting(after, task, e)))
  }

  lemma RunMoves(states: seq<State>, steps: seq<Step>, n: nat, task: nat, e: Entry)
    requires IsRun(states, steps) && n < |steps|
    ensures Moves(states[n], steps[n], states[n + 1], task, e)
  {
    QueueAndTableAgree(states, steps, n);
    CountsAgree(states, steps, n);
    var s, step := states[n], steps[n];
    if Gone(s, task) {
      StepKeepsGone(s, step, task);
    }
    if Waiting(s, task, e) {
      StepOfWaiting(s, step, task, e);
    }
    assert states[n + 1] == Apply(s, step);
  }

  ghost predicate AllMove(states: seq<State>, steps: seq<Step>, task: nat, e: Entry) {
    |states| == |steps| + 1 && forall i :: 0 <= i < |steps| ==> Moves(states[i], steps[i], states[i + 1], task, e)
  }

  lemma RunAllMoves(states: seq<State>, steps: seq<Step>, task: nat, e: Entry)
    requires IsRun(states, steps)
    ensures AllMove(states, steps, task, e)
  {
    forall i | 0 <= i < |steps|
      ensures Moves(states[i], steps[i], states[i + 1], task, e)
    {
      RunMoves(states, steps, i, task, e);
    }
  }

  lemma NextPhase(states: seq<State>, steps: seq<Step>, m: nat, n: nat, task: nat, e: Entry)
    requires |states| == |steps| + 1 && m <= n < |steps|
    requires Phase(states, steps, m, n, task, e) && Moves(states[n], steps[n], states[n + 1], task, e)
    ensures Phase(states, steps, m, n + 1, task, e)
  {
    PoppedByNow(states, steps, m, n, e);
  }

  lemma FirstPhase(states: seq<State>, steps: seq<Step>, m: nat, task: nat, e: Entry)
    requires |states| == |steps| + 1 && m < |states| && Waiting(states[m], task, e)
    ensures Phase(states, steps, m, m, task, e)
  {
  }

  lemma {:induction false} RemovedTimerPhases(
    states: seq<State>, steps: seq<Step>, m: nat, n: nat, task: nat, e: Entry)
    requires AllMove(states, steps, task, e) && m <= n < |states| && Waiting(states[m], task, e)
    ensures Phase(states, steps, m, n, task, e)
  {
    if m == n {
      FirstPhase(states, steps, m, task, e);
    } else {
      RemovedTimerPhases(states, steps, m, n - 1, task, e);
      NextPhase(states, steps, m, n - 1, task, e);
    }
  }

  /**
   * A removed timer that is queued runs once more if and only if the detector pops its entry,
   * when it is due, before a stop or start clears the queue. Until then the entry stays as it
   * is; afterwards the timer never runs again.
   */
  lemma RemovedTimerRunsOnceMoreIff(states: seq<State>, steps: seq<Step>, m: nat, n: nat, e: Entry)
    requires IsRun(states, steps) && m < n < |states|
    requires steps[m] == Remove(e.id) && e in states[m].queue
    ensures e.id in states[m].timers
    ensures var task := states[m].timers[e.id].task;
            && Fires(states[n].h.fires, task)
               == Fires(states[m].h.fires, task) + (if Popped(states, steps, m + 1, n, e) then 1 else 0)
            && (if !Popped(states, steps, m + 1, n, e) && Uncleared(states, steps, m + 1, n)
                then Waiting(states[n], task, e) else Gone(states[n], task))
  {
    QueueAndTableAgree(states, steps, m);
    CountsAgree(states, steps, m);
    var task := states[m].timers[e.id].task;
    assert states[m + 1] == ApplyRemove(states[m], e.id);
    RunAllMoves(states, steps, task, e);
    RemovedTimerPhases(states, steps, m + 1, n, task, e);
  }

  /** A timer removed while it is not queued, which only happens in a stopped manager, never runs again. */
  lemma RemovedUnqueuedTimerNeverRuns(states: seq<State>, steps: seq<Step>, m: nat, n: nat, id: int)
    requires IsRun(states, steps) && m < n < |states|
    requires steps[m] == Remove(id) && id in states[m].timers && !Queued(states[m].queue, id)
    ensures !states[m].running
    ensures var task := states[m].timers[id].task; Fires(states[n].h.fires, task) == Fires(states[m].h.fires, task)
  {
    QueueAndTableAgree(states, steps, m);
    CountsAgree(states, steps, m);
    assert states[m + 1] == ApplyRemove(states[m], id);
    var task, none := states[m].timers[id].task, Entry(DATETIME_MIN, -1);
    RunAllMoves(states, steps, task, none);
    GoneForEver(states, steps, m + 1, n, task, none);
  }

  lemma {:induction false} GoneForEver(
    states: seq<State>, steps: seq<Step>, m: nat, n: nat, task: nat, e: Entry)
    requires AllMove(states, steps, task, e) && m <= n < |states| && Gone(states[m], task)
    ensures Gone(states[n], task) && Fires(states[n].h.fires, task) == Fires(states[m].h.fires, task)
  {
    if m < n {
      GoneForEver(states, steps, m, n - 1, task, e);
    }
  }
}
