/**
 * Where the runs of a timer fall, over whole runs of the system: the time of day of a daily
 * timer, the window of a timer that has one, and the calendar days around a restart.
 */
module TimerProgress {
  import opened Common
  import opened TimerSchedule
  import opened TimerSystem

  // ----- Daily timers keep their time of day -----

  predicate AtItsTime(p: Plan, t: Time) {
    Daily(p) ==> TimeOfDay(t) == p.endTime
  }

  /** Every queued and every past run of a daily timer is at its time of day. */
  ghost predicate KeepsTime(s: State) {
    && (forall i :: 0 <= i < |s.queue| && s.queue[i].id in s.timers ==>
          AtItsTime(s.timers[s.queue[i].id].plan, s.queue[i].time))
    && (forall k :: 0 <= k < |s.h.fires| && s.h.fires[k].task < |s.h.asked| ==>
          AtItsTime(s.h.asked[s.h.fires[k].task].plan, s.h.fires[k].due))
  }

  lemma FirstPointsAtTheirTime(p: Plan, n: int, now: Time)
    requires WellFormed(p)
    ensures AddPoint(p, n, now).Success? ==> AtItsTime(p, AddPoint(p, n, now).value)
    ensures RestartPoint(p, n, now).Some? ==> AtItsTime(p, RestartPoint(p, n, now).value)
  {
    if Daily(p) {
      DailyPointIsNextOccurrence(p, now);
    }
  }

  lemma AddKeepsTime(s: State, plan: Plan, repeat: int, now: Time, id: int)
    requires KeepsTime(s) && QueueInv(s) && TaskInv(s) && Enabled(s, Add(plan, repeat, now, id))
    ensures KeepsTime(ApplyAdd(s, plan, repeat, now, id))
  {
    FirstPointsAtTheirTime(plan, repeat, now);
  }

  lemma SubmitKeepsTime(s: State, top: nat, again: Time, after: State)
    requires KeepsTime(s) && QueueInv(s) && TaskInv(s) && top < |s.queue| && Submitted(s, top, again, after)
    ensures KeepsTime(after)
  {
    var e := s.queue[top];
    var p := s.timers[e.id].plan;
    if Daily(p) {
      NextPointOfDaily(p, e.time, again);
    }
    PopKeepsEntries(s.queue, top);
  }

  lemma StartKeepsTime(s: State, readings: map<int, Time>, rebuilt: seq<Entry>)
    requires KeepsTime(s) && TaskInv(s) && !s.running && Enabled(s, Start(readings, rebuilt))
    ensures KeepsTime(ApplyStart(s, readings, rebuilt))
  {
    forall i | 0 <= i < |rebuilt|
      ensures AtItsTime(s.timers[rebuilt[i].id].plan, rebuilt[i].time)
    {
      var t := s.timers[rebuilt[i].id];
      FirstPointsAtTheirTime(t.plan, t.left, readings[rebuilt[i].id]);
    }
  }

  lemma StepKeepsTime(s: State, step: Step)
    requires KeepsTime(s) && QueueInv(s) && TaskInv(s) && Enabled(s, step)
    ensures KeepsTime(Apply(s, step))
  {
    match step
    case Add(plan, repeat, now, id) => AddKeepsTime(s, plan, repeat, now, id);
    case Remove(id) =>
    case Poll =>
    case Detect(now, again, top) =>
      if s.queue != [] && s.queue[top].time <= now {
        SubmitShape(s, now, again, top);
        SubmitKeepsTime(s, top, again, Apply(s, step));
      }
    case Stop =>
    case Start(readings, rebuilt) =>
      if !s.running {
        StartKeepsTime(s, readings, rebuilt);
      }
  }

  /** In every run, restarts and clock changes included, a daily timer keeps its time of day for ever. */
  lemma {:induction false} DailyTimersKeepTheirTime(states: seq<State>, steps: seq<Step>, n: nat)
    requires IsRun(states, steps) && n < |states|
    ensures KeepsTime(states[n])
  {
    if n > 0 {
      DailyTimersKeepTheirTime(states, steps, n - 1);
      QueueAndTableAgree(states, steps, n - 1);
      CountsAgree(states, steps, n - 1);
      StepKeepsTime(states[n - 1], steps[n - 1]);
    }
  }

  // ----- Window timers -----

  ghost predicate InsideWindow(p: Plan, t: Time) {
    exists day :: day % DAY == 0 && day + p.startTime <= t <= day + p.endTime
  }

  ghost predicate InItsWindow(p: Plan, t: Time) {
    Windowed(p) ==> InsideWindow(p, t)
  }

  /** Every queued and every past run of a timer with a window is inside the window of some day. */
  ghost predicate KeepsWindows(s: State) {
    && (forall i :: 0 <= i < |s.queue| && s.queue[i].id in s.timers ==>
          InItsWindow(s.timers[s.queue[i].id].plan, s.queue[i].time))
    && (forall k :: 0 <= k < |s.h.fires| && s.h.fires[k].task < |s.h.asked| ==>
          InItsWindow(s.h.asked[s.h.fires[k].task].plan, s.h.fires[k].due))
  }

  /** The first run is rounded up to a grid point past the end of the window. */
  predicate RoundsOut(p: Plan, now: Time)
    requires p.duration > 0
  {
    var raw := if p.startDate >= StartOfDay(now) then p.startDate + p.startTime + p.duration else now + p.duration;
    var gap := TimeOfDay(raw) - p.startTime;
    && 0 <= gap && TimeOfDay(raw) <= p.endTime && gap % p.duration != 0
    && p.duration * (gap / p.duration + 1) % DAY > p.endTime - p.startTime
  }

  /** The next run comes on a later day than planned, and before that day's window. */
  predicate ComesTooEarly(p: Plan, due: Time, now: Time) {
    due + p.duration < StartOfDay(now) + p.startTime && now < StartOfDay(now) + p.startTime
  }

  lemma FirstPointInWindowIff(p: Plan, now: Time)
    requires WellFormed(p) && Windowed(p)
    ensures InsideWindow(p, IntervalPoint(p, now)) <==> !RoundsOut(p, now)
  {
    var raw := if p.startDate >= StartOfDay(now) then p.startDate + p.startTime + p.duration else now + p.duration;
    FirstRunInsideWindowIff(raw, p.startTime, p.endTime, p.duration);
  }

  lemma SameDay(a: int, b: int, t: Time)
    requires a % DAY == 0 && b % DAY == 0 && a <= t < a + DAY && b <= t < b + DAY
    ensures a == b
  {
  }

  lemma NextPointInWindowIff(p: Plan, due: Time, now: Time)
    requires WellFormed(p) && Windowed(p)
    ensures InsideWindow(p, NextPoint(p, due, now)) <==> !ComesTooEarly(p, due, now)
  {
    var t, today := NextPoint(p, due, now), StartOfDay(now);
    if t > today + p.endTime {
      assert (today + DAY) % DAY == 0 && today + DAY + p.startTime <= t <= today + DAY + p.endTime;
    } else {
      assert today <= now <= t && today % DAY == 0;
      if InsideWindow(p, t) {
        var day :| day % DAY == 0 && day + p.startTime <= t <= day + p.endTime;
        SameDay(day, today, t);
      }
    }
  }

  predicate IsDue(s: State, step: Step)
    requires step.Detect? && (s.queue != [] ==> step.top < |s.queue|)
  {
    s.queue != [] && s.queue[step.top].time <= step.now
  }

  /** The detector queues the timer again after this run. */
  predicate GoesOn(t: Timer, due: Time, again: Time) {
    (t.left == INT_MAX || t.left > 1) && !PastEnd(t.plan, NextPoint(t.plan, due, again))
  }

  /** The steps that put a run outside the window of its timer. */
  ghost predicate Escapes(s: State, step: Step)
    requires QueueInv(s) && Enabled(s, step)
  {
    match step
    case Add(plan, repeat, now, id) =>
      && AddPoint(plan, repeat, now).Success? && |s.timers| < INT_MAX
      && Windowed(plan) && RoundsOut(plan, now)
    case Detect(now, again, top) =>
      && IsDue(s, step)
      && var t := s.timers[s.queue[top].id];
         Windowed(t.plan) && GoesOn(t, s.queue[top].time, again) && ComesTooEarly(t.plan, s.queue[top].time, again)
    case Start(readings, rebuilt) =>
      && !s.running
      && exists id :: id in s.timers && Live(s.timers[id], readings[id])
                      && Windowed(s.timers[id].plan) && RoundsOut(s.timers[id].plan, readings[id])
    case _ => false
  }

  lemma AddEscapesIff(s: State, plan: Plan, repeat: int, now: Time, id: int)
    requires KeepsWindows(s) && QueueInv(s) && TaskInv(s) && Enabled(s, Add(plan, repeat, now, id))
    ensures KeepsWindows(ApplyAdd(s, plan, repeat, now, id)) <==> !Escapes(s, Add(plan, repeat, now, id))
  {
    var point := AddPoint(plan, repeat, now);
    var after := ApplyAdd(s, plan, repeat, now, id);
    if point.Success? && |s.timers| < INT_MAX {
      assert after.queue[|s.queue|] == Entry(point.value, id) && after.timers[id].plan == plan;
      if Windowed(plan) {
        FirstPointInWindowIff(plan, now);
      }
    }
  }

  /** The entry that was popped, and the one that may have been queued instead. */
  lemma SubmitEscapesIff(s: State, top: nat, again: Time, after: State)
    requires KeepsWindows(s) && QueueInv(s) && TaskInv(s) && top < |s.queue| && Submitted(s, top, again, after)
    ensures var e := s.queue[top];
            var p := s.timers[e.id].plan;
            KeepsWindows(after)
            <==> (after.queue != Without(s.queue, top) ==> InItsWindow(p, NextPoint(p, e.time, again)))
  {
    var e := s.queue[top];
    var p := s.timers[e.id].plan;
    var rest := Without(s.queue, top);
    PopKeepsEntries(s.queue, top);
    if after.queue != rest {
      assert after.queue[|rest|] == Entry(NextPoint(p, e.time, again), e.id);
    }
  }

  lemma DetectEscapesIff(s: State, step: Step)
    requires KeepsWindows(s) && QueueInv(s) && TaskInv(s) && Enabled(s, step) && step.Detect?
    ensures KeepsWindows(Apply(s, step)) <==> !Escapes(s, step)
  {
    if IsDue(s, step) {
      var e := s.queue[step.top];
      var t := s.timers[e.id];
      SubmitShape(s, step.now, step.again, step.top);
      SubmitEscapesIff(s, step.top, step.again, Apply(s, step));
      if Windowed(t.plan) {
        NextPointInWindowIff(t.plan, e.time, step.again);
      }
    }
  }

  lemma StartEscapesIff(s: State, readings: map<int, Time>, rebuilt: seq<Entry>)
    requires KeepsWindows(s) && QueueInv(s) && TaskInv(s) && !s.running && Enabled(s, Start(readings, rebuilt))
    ensures KeepsWindows(ApplyStart(s, readings, rebuilt)) <==> !Escapes(s, Start(readings, rebuilt))
  {
    forall i | 0 <= i < |rebuilt|
      ensures var id := rebuilt[i].id;
              InItsWindow(s.timers[id].plan, rebuilt[i].time)
              <==> !(Windowed(s.timers[id].plan) && RoundsOut(s.timers[id].plan, readings[id]))
    {
      if Windowed(s.timers[rebuilt[i].id].plan) {
        FirstPointInWindowIff(s.timers[rebuilt[i].id].plan, readings[rebuilt[i].id]);
      }
    }
    var after := ApplyStart(s, readings, rebuilt);
    if Escapes(s, Start(readings, rebuilt)) {
      var id :| id in s.timers && Live(s.timers[id], readings[id])
                && Windowed(s.timers[id].plan) && RoundsOut(s.timers[id].plan, readings[id]);
      var i :| 0 <= i < |rebuilt| && rebuilt[i].id == id;
      assert after.queue[i].id in after.timers;
    }
  }

  lemma RemoveKeepsWindows(s: State, id: int)
    requires KeepsWindows(s)
    ensures KeepsWindows(ApplyRemove(s, id))
  {
  }

  lemma StepEscapesIff(s: State, step: Step)
    requires KeepsWindows(s) && QueueInv(s) && TaskInv(s) && Enabled(s, step)
    ensures KeepsWindows(Apply(s, step)) <==> !Escapes(s, step)
  {
    match step
    case Add(plan, repeat, now, id) => AddEscapesIff(s, plan, repeat, now, id);
    case Remove(id) => RemoveKeepsWindows(s, id);
    case Poll =>
    case Detect(now, again, top) => DetectEscapesIff(s, step);
    case Stop =>
    case Start(readings, rebuilt) =>
      if !s.running {
        StartEscapesIff(s, readings, rebuilt);
      }
  }

  ghost predicate EscapesAt(states: seq<State>, steps: seq<Step>, i: nat)
    requires IsRun(states, steps) && i < |steps|
  {
    QueueAndTableAgree(states, steps, i);
    Escapes(states[i], steps[i])
  }

  lemma RunEscapesIff(states: seq<State>, steps: seq<Step>, n: nat)
    requires IsRun(states, steps) && n < |steps|
    ensures KeepsWindows(states[n]) ==> (KeepsWindows(states[n + 1]) <==> !EscapesAt(states, steps, n))
  {
    QueueAndTableAgree(states, steps, n);
    CountsAgree(states, steps, n);
    var s, step := states[n], steps[n];
    if KeepsWindows(s) {
      StepEscapesIff(s, step);
    }
    assert states[n + 1] == Apply(s, step);
  }

  /**
   * In every run, whatever the clock does: all runs of timers with a window, queued or past,
   * have been inside the window of some day up to some state, exactly when no step so far has
   * rounded a first run past the window's end or met the clock before the window of a later
   * day.
   */
  lemma {:induction false} WindowsAreKeptIff(states: seq<State>, steps: seq<Step>, n: nat)
    requires IsRun(states, steps) && n < |states|
    ensures (forall k :: 0 <= k <= n ==> KeepsWindows(states[k]))
            <==> (forall i :: 0 <= i < n ==> !EscapesAt(states, steps, i))
  {
    if n > 0 {
      WindowsAreKeptIff(states, steps, n - 1);
      RunEscapesIff(states, steps, n - 1);
    }
  }

  // ----- Daily timers and restarts -----

  /** Runs of a daily timer fall due no earlier than its start date, and are submitted no earlier than due. */
  ghost predicate NotBeforeStart(s: State) {
    && (forall i :: 0 <= i < |s.queue| && s.queue[i].id in s.timers ==>
          AfterStart(s.timers[s.queue[i].id].plan, s.queue[i].time))
    && (forall k :: 0 <= k < |s.h.fires| && s.h.fires[k].task < |s.h.asked| ==>
          AfterStart(s.h.asked[s.h.fires[k].task].plan, s.h.fires[k].at))
  }

  predicate AfterStart(p: Plan, t: Time) {
    Daily(p) ==> p.startDate + p.endTime <= t
  }

  lemma StepKeepsStart(s: State, step: Step)
    requires NotBeforeStart(s) && QueueInv(s) && TaskInv(s) && Enabled(s, step)
    requires step.Detect? ==> step.now <= step.again
    ensures NotBeforeStart(Apply(s, step))
  {
    match step
    case Detect(now, again, top) =>
      if IsDue(s, step) {
        SubmitShape(s, now, again, top);
        SubmitKeepsStart(s, top, again, Apply(s, step));
      }
    case Start(readings, rebuilt) =>
      if !s.running {
        StartKeepsStart(s, readings, rebuilt);
      }
    case Add(plan, repeat, now, id) => AddKeepsStart(s, plan, repeat, now, id);
    case Remove(id) => RemoveKeepsStart(s, id);
    case Poll =>
    case Stop =>
  }

  lemma AddKeepsStart(s: State, plan: Plan, repeat: int, now: Time, id: int)
    requires NotBeforeStart(s) && QueueInv(s) && TaskInv(s) && Enabled(s, Add(plan, repeat, now, id))
    ensures NotBeforeStart(ApplyAdd(s, plan, repeat, now, id))
  {
  }

  lemma RemoveKeepsStart(s: State, id: int)
    requires NotBeforeStart(s)
    ensures NotBeforeStart(ApplyRemove(s, id))
  {
  }

  lemma SubmitKeepsStart(s: State, top: nat, again: Time, after: State)
    requires NotBeforeStart(s) && QueueInv(s) && TaskInv(s) && top < |s.queue| && s.queue[top].time <= again
    requires Submitted(s, top, again, after)
    ensures NotBeforeStart(after)
  {
    PopKeepsEntries(s.queue, top);
    NextPointIsLater(s.timers[s.queue[top].id].plan, s.queue[top].time, again);
  }

  lemma StartKeepsStart(s: State, readings: map<int, Time>, rebuilt: seq<Entry>)
    requires NotBeforeStart(s) && TaskInv(s) && !s.running && Enabled(s, Start(readings, rebuilt))
    ensures NotBeforeStart(ApplyStart(s, readings, rebuilt))
  {
  }

  lemma {:induction false} SubmissionsAreAfterStart(states: seq<State>, steps: seq<Step>, n: nat)
    requires IsRun(states, steps) && n < |states|
    requires forall i :: 0 <= i < |steps| && steps[i].Detect? ==> steps[i].now <= steps[i].again
    ensures NotBeforeStart(states[n])
  {
    if n > 0 {
      SubmissionsAreAfterStart(states, steps, n - 1);
      QueueAndTableAgree(states, steps, n - 1);
      CountsAgree(states, steps, n - 1);
      StepKeepsStart(states[n - 1], steps[n - 1]);
    }
  }

  /**
   * A restart queues a daily timer that has been submitted before, for the calendar day of
   * that submission again, exactly when it happens on that day and not after the timer's
   * time of day.
   */
  lemma RestartRepeatsDayInRunIff(states: seq<State>, steps: seq<Step>, n: nat, id: int, k: nat, i: nat)
    requires IsRun(states, steps) && n < |steps|
    requires forall j :: 0 <= j < |steps| && steps[j].Detect? ==> steps[j].now <= steps[j].again
    requires steps[n].Start? && !states[n].running && id in states[n].timers && Daily(states[n].timers[id].plan)
    requires k < |states[n].h.fires| && states[n].h.fires[k].task == states[n].timers[id].task
    requires id in steps[n].readings && states[n].h.fires[k].at <= steps[n].readings[id]
    requires i < |states[n + 1].queue| && states[n + 1].queue[i].id == id
    ensures var now, at := steps[n].readings[id], states[n].h.fires[k].at;
            StartOfDay(states[n + 1].queue[i].time) == StartOfDay(at)
            <==> StartOfDay(now) == StartOfDay(at) && TimeOfDay(now) <= states[n].timers[id].plan.endTime
  {
    var s, step := states[n], steps[n];
    var t, now := s.timers[id], step.readings[id];
    QueueAndTableAgree(states, steps, n);
    CountsAgree(states, steps, n);
    SubmissionsAreAfterStart(states, steps, n);
    assert states[n + 1] == ApplyStart(s, step.readings, step.rebuilt);
    assert RestartPoint(t.plan, t.left, now) == Some(states[n + 1].queue[i].time);
    RestartRepeatsDayIff(t.plan, t.left, s.h.fires[k].at, now);
  }

  // ----- After a stop -----

  /**
   * Until the next start a stopped manager submits nothing, except that the detector may
   * finish the one iteration that it was let into before the stop.
   */
  lemma {:induction false} StoppedManagerSubmitsNothing(states: seq<State>, steps: seq<Step>, m: nat, n: nat)
    requires IsRun(states, steps) && m <= n < |states| && !states[m].running
    requires forall i :: m <= i < n ==> !steps[i].Start?
    ensures !states[n].running && (states[n].polled ==> states[m].polled)
    ensures states[m].h.fires <= states[n].h.fires
    ensures |states[n].h.fires| <= |states[m].h.fires| + if states[m].polled && !states[n].polled then 1 else 0
  {
    if m < n {
      StoppedManagerSubmitsNothing(states, steps, m, n - 1);
      QuietStep(states[n - 1], steps[n - 1]);
      assert states[n] == Apply(states[n - 1], steps[n - 1]);
    }
  }

  lemma QuietStep(s: State, step: Step)
    requires Enabled(s, step) && !s.running && !step.Start?
    ensures var t := Apply(s, step);
            && !t.running && (t.polled ==> s.polled) && s.h.fires <= t.h.fires
            && |t.h.fires| <= |s.h.fires| + if s.polled && !t.polled then 1 else 0
  {
  }
}
