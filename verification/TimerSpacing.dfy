/** The exact distance between successive runs of one timer, over whole runs of the system. */
module TimerSpacing {
  import opened Common
  import opened TimerSchedule
  import opened TimerSystem

  /** The latest run of a task so far. */
  ghost predicate IsLast(fires: seq<Fire>, j: nat, task: nat) {
    j < |fires| && fires[j].task == task && forall i :: j < i < |fires| ==> fires[i].task != task
  }

  /** Two runs of one task with no other run of it between them. */
  ghost predicate Consecutive(fires: seq<Fire>, j: nat, k: nat) {
    && j < k < |fires| && fires[j].task == fires[k].task
    && forall i :: j < i < k ==> fires[i].task != fires[k].task
  }

  ghost predicate EntryFollows(s: State, i: nat, j: nat)
    requires i < |s.queue| && j < |s.h.fires| && s.queue[i].id in s.timers
  {
    var t := s.timers[s.queue[i].id];
    IsLast(s.h.fires, j, t.task) ==> s.queue[i].time == NextPoint(t.plan, s.h.fires[j].due, s.h.fires[j].at)
  }

  ghost predicate FireFollows(h: History, j: nat, k: nat)
    requires j < k < |h.fires| && h.fires[k].task < |h.asked|
  {
    Consecutive(h.fires, j, k) ==>
      h.fires[k].due == NextPoint(h.asked[h.fires[k].task].plan, h.fires[j].due, h.fires[j].at)
  }

  /** Within a running period every run, and the queued one, is where its predecessor puts it. */
  ghost predicate Spaced(s: State) {
    && QueueInv(s) && TaskInv(s)
    && (forall i, j :: 0 <= i < |s.queue| && s.h.period <= j < |s.h.fires| ==> EntryFollows(s, i, j))
    && (forall j, k :: s.h.period <= j < k < |s.h.fires| ==> FireFollows(s.h, j, k))
  }

  /** Steps that submit nothing leave every entry where its predecessor puts it. */
  lemma SameFiresKeepSpaced(s: State, t: State)
    requires Spaced(s) && QueueInv(t) && TaskInv(t)
    requires t.h.fires == s.h.fires && t.h.period == s.h.period && s.h.asked <= t.h.asked
    requires forall i :: 0 <= i < |t.queue| ==>
               || (i < |s.queue| && t.queue[i] == s.queue[i] && SameTimer(s, t, t.queue[i].id))
               || t.timers[t.queue[i].id].task == |s.h.asked|
    ensures Spaced(t)
  {
    forall i, j | 0 <= i < |t.queue| && t.h.period <= j < |t.h.fires|
      ensures EntryFollows(t, i, j)
    {
      assert i < |s.queue| ==> EntryFollows(s, i, j);
    }
    forall j, k | t.h.period <= j < k < |t.h.fires|
      ensures FireFollows(t.h, j, k)
    {
      assert FireFollows(s.h, j, k);
    }
  }

  ghost predicate SameTimer(s: State, t: State, id: int) {
    id in s.timers && id in t.timers && t.timers[id].task == s.timers[id].task && t.timers[id].plan == s.timers[id].plan
  }

  lemma LastBefore(fires: seq<Fire>, f: Fire, j: nat, task: nat)
    ensures j < |fires| ==> (IsLast(fires + [f], j, task) <==> IsLast(fires, j, task) && f.task != task)
    ensures j < |fires| && Consecutive(fires + [f], j, |fires|) ==> IsLast(fires, j, f.task)
    ensures IsLast(fires + [f], |fires|, task) <==> f.task == task
  {
    var all := fires + [f];
    assert all[|fires|] == f && forall i :: 0 <= i < |fires| ==> all[i] == fires[i];
  }

  lemma EntryFollowsSubmission(s: State, top: nat, again: Time, after: State, i: nat, j: nat)
    requires Spaced(s) && top < |s.queue| && Submitted(s, top, again, after) && QueueInv(after)
    requires i < |after.queue| && s.h.period <= j < |after.h.fires|
    ensures EntryFollows(after, i, j)
  {
    var e, rest := s.queue[top], Without(s.queue, top);
    var t := s.timers[e.id];
    var f := Fire(t.task, e.time, again);
    PopKeepsEntries(s.queue, top);
    LastBefore(s.h.fires, f, j, after.timers[after.queue[i].id].task);
    if i < |rest| {
      var k := if i < top then i else i + 1;
      assert after.queue[i] == s.queue[k];
      assert j < |s.h.fires| ==> EntryFollows(s, k, j);
    }
  }

  lemma FireFollowsSubmission(s: State, top: nat, again: Time, after: State, j: nat, k: nat)
    requires Spaced(s) && top < |s.queue| && Submitted(s, top, again, after) && TaskInv(after)
    requires s.h.period <= j < k < |after.h.fires|
    ensures FireFollows(after.h, j, k)
  {
    var e := s.queue[top];
    var f := Fire(s.timers[e.id].task, e.time, again);
    if k < |s.h.fires| {
      assert FireFollows(s.h, j, k);
      forall i | j < i < k
        ensures after.h.fires[i] == s.h.fires[i]
      {
      }
      assert after.h.fires[j] == s.h.fires[j] && after.h.fires[k] == s.h.fires[k];
    } else {
      LastBefore(s.h.fires, f, j, f.task);
      assert EntryFollows(s, top, j);
    }
  }

  lemma SubmitKeepsSpaced(s: State, top: nat, again: Time, after: State)
    requires Spaced(s) && top < |s.queue| && Submitted(s, top, again, after) && QueueInv(after) && TaskInv(after)
    ensures Spaced(after)
  {
    forall i, j | 0 <= i < |after.queue| && after.h.period <= j < |after.h.fires|
      ensures EntryFollows(after, i, j)
    {
      EntryFollowsSubmission(s, top, again, after, i, j);
    }
    forall j, k | after.h.period <= j < k < |after.h.fires|
      ensures FireFollows(after.h, j, k)
    {
      FireFollowsSubmission(s, top, again, after, j, k);
    }
  }

  lemma AddKeepsSpaced(s: State, plan: Plan, repeat: int, now: Time, id: int)
    requires Spaced(s) && CountInv(s) && Enabled(s, Add(plan, repeat, now, id))
    ensures Spaced(ApplyAdd(s, plan, repeat, now, id))
  {
    AddKeepsQueue(s, plan, repeat, now, id);
    AddKeepsCounts(s, plan, repeat, now, id);
    SameFiresKeepSpaced(s, ApplyAdd(s, plan, repeat, now, id));
  }

  lemma RemoveKeepsSpaced(s: State, id: int)
    requires Spaced(s)
    ensures Spaced(ApplyRemove(s, id))
  {
    RemoveKeepsQueue(s, id);
    RemoveKeepsTasks(s, id);
    SameFiresKeepSpaced(s, ApplyRemove(s, id));
  }

  lemma StartKeepsSpaced(s: State, readings: map<int, Time>, rebuilt: seq<Entry>)
    requires Spaced(s) && !s.running && Enabled(s, Start(readings, rebuilt))
    ensures Spaced(ApplyStart(s, readings, rebuilt))
  {
    StartKeepsQueue(s, readings, rebuilt);
  }

  lemma DetectKeepsSpaced(s: State, step: Step)
    requires Spaced(s) && CountInv(s) && Enabled(s, step) && step.Detect?
    ensures Spaced(Apply(s, step))
  {
    StepKeepsQueue(s, step);
    StepKeepsCounts(s, step);
    if s.queue != [] && s.queue[step.top].time <= step.now {
      SubmitShape(s, step.now, step.again, step.top);
      SubmitKeepsSpaced(s, step.top, step.again, Apply(s, step));
    } else {
      SameFiresKeepSpaced(s, Apply(s, step));
    }
  }

  lemma StepKeepsSpaced(s: State, step: Step)
    requires Spaced(s) && CountInv(s) && Enabled(s, step)
    ensures Spaced(Apply(s, step))
  {
    match step
    case Add(plan, repeat, now, id) => AddKeepsSpaced(s, plan, repeat, now, id);
    case Remove(id) => RemoveKeepsSpaced(s, id);
    case Poll => SameFiresKeepSpaced(s, s.(polled := true));
    case Detect(_, _, _) => DetectKeepsSpaced(s, step);
    case Stop => SameFiresKeepSpaced(s, s.(running := false, queue := []));
    case Start(readings, rebuilt) =>
      if !s.running {
        StartKeepsSpaced(s, readings, rebuilt);
      }
  }

  lemma {:induction false} RunsStaySpaced(states: seq<State>, steps: seq<Step>, n: nat)
    requires IsRun(states, steps) && n < |states|
    ensures Spaced(states[n])
  {
    if n > 0 {
      RunsStaySpaced(states, steps, n - 1);
      CountsAgree(states, steps, n - 1);
      StepKeepsSpaced(states[n - 1], steps[n - 1]);
    }
  }

  /** Where the run after the one due at due and submitted at at must fall. */
  ghost predicate IsSuccessor(p: Plan, due: Time, at: Time, next: Time) {
    var today := at - at % DAY;
    if Daily(p) then
      next % DAY == due % DAY && next - next % DAY == today + DAY
    else if p.startTime == p.endTime || (due + p.duration <= today + p.endTime && at <= today + p.endTime) then
      next == if due + p.duration >= at then due + p.duration else at
    else
      next == today + DAY + p.startTime
  }

  lemma NextPointIsSuccessor(p: Plan, due: Time, at: Time)
    requires WellFormed(p)
    ensures IsSuccessor(p, due, at, NextPoint(p, due, at))
  {
    if Daily(p) {
      NextPointOfDaily(p, due, at);
    }
  }

  /**
   * In every run, whatever the clock does: of two consecutive runs of one timer between two
   * starts, the second is due a duration after the first was due, or at the reading at which
   * the first was submitted if that is later; past the window's end on that day it is due at
   * the start of the next day's window. A daily timer is due on the day after the submission.
   */
  lemma ConsecutiveRunsAreSpaced(states: seq<State>, steps: seq<Step>, n: nat, j: nat, k: nat)
    requires IsRun(states, steps) && n < |states| && states[n].h.period <= j && Consecutive(states[n].h.fires, j, k)
    ensures var h := states[n].h;
            && h.fires[k].task < |h.asked|
            && IsSuccessor(h.asked[h.fires[k].task].plan, h.fires[j].due, h.fires[j].at, h.fires[k].due)
  {
    RunsStaySpaced(states, steps, n);
    CountsAgree(states, steps, n);
    var h := states[n].h;
    assert FireFollows(h, j, k);
    PlansAreWellFormed(states, steps, n);
    NextPointIsSuccessor(h.asked[h.fires[k].task].plan, h.fires[j].due, h.fires[j].at);
  }

  // ----- The plans that were asked for -----

  ghost predicate AskedWell(s: State) {
    forall task :: 0 <= task < |s.h.asked| ==> WellFormed(s.h.asked[task].plan)
  }

  lemma StepKeepsAskedWell(s: State, step: Step)
    requires AskedWell(s) && Enabled(s, step)
    ensures AskedWell(Apply(s, step))
  {
  }

  lemma {:induction false} PlansAreWellFormed(states: seq<State>, steps: seq<Step>, n: nat)
    requires IsRun(states, steps) && n < |states|
    ensures AskedWell(states[n])
  {
    if n > 0 {
      PlansAreWellFormed(states, steps, n - 1);
      StepKeepsAskedWell(states[n - 1], steps[n - 1]);
    }
  }
}
