/**
 * The date range that addFuncAtTimeEveryDay is given: it is checked, but what is registered
 * is a timer without an end. These are the runs of it that fall into the range.
 */
module TimerDates {
  import opened Common
  import opened TimerSchedule
  import opened TimerSystem
  import opened TimerManagement

  /** What is registered, whatever the dates. */
  function EveryDay(time: int): Plan {
    Plan(DATETIME_MIN, DATETIME_MAX, -DAY, time, 0)
  }

  predicate InRange(startDate: Time, endDate: Time, t: Time) {
    StartOfDay(startDate) <= StartOfDay(t) <= StartOfDay(endDate)
  }

  /** The day of the first run: today, unless the time of day has passed. */
  function FirstDay(time: int, now: Time): Time {
    if TimeOfDay(now) <= time then StartOfDay(now) else StartOfDay(now) + DAY
  }

  /** The first run lies in the requested range exactly when today does, or tomorrow once the time has passed. */
  lemma FirstRunInRangeIff(startDate: Time, endDate: Time, time: int, now: Time)
    requires DATETIME_MIN < now && StartOfDay(now) <= DATETIME_MAX
    requires StartOfDay(startDate) <= StartOfDay(endDate) && 0 <= time < DAY
    ensures var r := AddFuncAtTimeEveryDayRequest(Some(startDate), Some(endDate), time);
            && r == Success(Request(EveryDay(time), INT_MAX)) && WellFormed(EveryDay(time))
            && AddPoint(EveryDay(time), INT_MAX, now).Success?
            && (InRange(startDate, endDate, AddPoint(EveryDay(time), INT_MAX, now).value)
                <==> StartOfDay(startDate) <= FirstDay(time, now) <= StartOfDay(endDate))
  {
    EveryDayPoint(time, now);
    DayOf(FirstDay(time, now), time);
  }

  /** After a run the timer is queued for the range exactly when tomorrow lies in it. */
  lemma NextRunInRangeIff(startDate: Time, endDate: Time, time: int, due: Time, again: Time)
    requires 0 <= time < DAY
    ensures InRange(startDate, endDate, NextPoint(EveryDay(time), due, again))
            <==> StartOfDay(startDate) <= StartOfDay(again) + DAY <= StartOfDay(endDate)
  {
    NextPointOfDaily(EveryDay(time), due, again);
  }

  /** The same for a restart. */
  lemma RestartInRangeIff(startDate: Time, endDate: Time, time: int, now: Time)
    requires DATETIME_MIN < now && 0 <= time < DAY
    ensures RestartPoint(EveryDay(time), INT_MAX, now).Some?
    ensures InRange(startDate, endDate, RestartPoint(EveryDay(time), INT_MAX, now).value)
            <==> StartOfDay(startDate) <= FirstDay(time, now) <= StartOfDay(endDate)
  {
    EveryDayPoint(time, now);
    DayOf(FirstDay(time, now), time);
  }

  lemma EveryDayPoint(time: int, now: Time)
    requires DATETIME_MIN < now && 0 <= time < DAY
    ensures FirstDay(time, now) % DAY == 0
    ensures DailyPoint(EveryDay(time), now) == FirstDay(time, now) + time
  {
    if now <= time {
      DayOf(0, now);
    }
  }

  // ----- Timers without an end -----

  predicate Endless(t: Timer) {
    t.left == FOREVER && t.plan.endDate == DATETIME_MAX
  }

  /** The timer is in the table as it was, or its user has removed it. */
  ghost predicate Stays(s: State, id: int, t: Timer) {
    (id in s.timers && s.timers[id] == t) || t.task in s.h.removedAt
  }

  lemma StepKeepsEndless(s: State, step: Step, id: int, t: Timer)
    requires QueueInv(s) && Enabled(s, step) && Endless(t) && Stays(s, id, t)
    ensures Stays(Apply(s, step), id, t)
  {
    StepRemembers(s, step);
  }

  /**
   * Over every run, restarts included, a timer without a limit on its runs and without an end
   * date stays in the table as it is until its user removes it.
   */
  lemma {:induction false} EndlessTimersStay(
    states: seq<State>, steps: seq<Step>, m: nat, n: nat, id: int, t: Timer)
    requires IsRun(states, steps) && m <= n < |states| && Endless(t) && Stays(states[m], id, t)
    ensures Stays(states[n], id, t)
  {
    if m < n {
      EndlessTimersStay(states, steps, m, n - 1, id, t);
      QueueAndTableAgree(states, steps, n - 1);
      StepKeepsEndless(states[n - 1], steps[n - 1], id, t);
    }
  }

  /** A timer from addFuncAtTimeEveryDay, from the step that adds it on: queued for ever, past any end date. */
  lemma EveryDayTimerStays(states: seq<State>, steps: seq<Step>, m: nat, n: nat, time: int)
    requires IsRun(states, steps) && m < n < |states| && 0 <= time < DAY
    requires steps[m].Add? && steps[m].plan == EveryDay(time) && steps[m].repeat == INT_MAX
    requires AddPoint(EveryDay(time), INT_MAX, steps[m].now).Success? && |states[m].timers| < INT_MAX
    ensures var id, task := steps[m].id, |states[m].h.asked|;
            task in states[n].h.removedAt
            || (&& id in states[n].timers && states[n].timers[id] == Timer(EveryDay(time), FOREVER, task)
                && (states[n].running ==> Queued(states[n].queue, id)))
  {
    assert states[m + 1] == ApplyAdd(states[m], steps[m].plan, INT_MAX, steps[m].now, steps[m].id);
    EndlessTimersStay(states, steps, m + 1, n, steps[m].id, Timer(EveryDay(time), FOREVER, |states[m].h.asked|));
    QueueAndTableAgree(states, steps, n);
  }
}
