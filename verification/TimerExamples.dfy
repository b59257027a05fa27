/** Runs of the timer manager in which it does not do what its documentation says. */
module TimerExamples {
  import opened Common
  import opened TimerSchedule
  import opened TimerSystem
  import opened TimerManagement
  import opened TimerProgress
  import opened TimerDates

  const HOUR: int := 3_600_000_000
  const MINUTE: int := 60_000_000

  /** One timer, with id 0, in a running manager that has submitted nothing. */
  function OneTimer(plan: Plan, repeat: int, left: int, queue: seq<Entry>): State {
    State(true, false, queue, map[0 := Timer(plan, left, 0)], 0, History([Asked(plan, repeat)], [], 0, map[]))
  }

  lemma AddOne(s: State, plan: Plan, repeat: int, now: Time, at: Time)
    requires s.queue == [] && s.timers == map[] && s.currentId == -1 && s.h == Initial().h
    requires WellFormed(plan) && 0 < repeat <= INT_MAX && now > DATETIME_MIN
    requires AddPoint(plan, repeat, now) == Success(at)
    ensures Enabled(s, Add(plan, repeat, now, 0))
    ensures ApplyAdd(s, plan, repeat, now, 0)
         == OneTimer(plan, repeat, repeat, [Entry(at, 0)]).(running := s.running, polled := s.polled)
  {
  }

  lemma OneAdded(plan: Plan, repeat: int, now: Time, at: Time) returns (states: seq<State>, steps: seq<Step>)
    requires WellFormed(plan) && 0 < repeat <= INT_MAX && now > DATETIME_MIN
    requires AddPoint(plan, repeat, now) == Success(at)
    ensures IsRun(states, steps) && steps == [Add(plan, repeat, now, 0)]
    ensures states[1] == OneTimer(plan, repeat, repeat, [Entry(at, 0)])
  {
    AddOne(Initial(), plan, repeat, now, at);
    states, steps := [Initial()], [];
    states, steps := Extend(states, steps, Add(plan, repeat, now, 0));
  }

  lemma DetectOne(s: State, at: Time, now: Time, again: Time)
    requires s.queue == [Entry(at, 0)] && 0 in s.timers && DATETIME_MIN < at <= now
    ensures IsTop(s.queue, 0)
    ensures ApplyDetect(s, now, again, 0) == Submit(s.(queue := []), Entry(at, 0), again)
  {
    assert Without(s.queue, 0) == [];
  }

  // ----- Windows -----

  /** A window from 9:00 to 10:00 with a step of 40 minutes; added at 9:01 the timer first runs at 10:20. */
  lemma FirstRunMayLeaveWindow() returns (states: seq<State>, steps: seq<Step>)
    ensures IsRun(states, steps)
    ensures steps == [Add(Plan(0, DATETIME_MAX, 9 * HOUR, 10 * HOUR, 40 * MINUTE), 1, 5 * DAY + 9 * HOUR + MINUTE, 0)]
    ensures states[1].queue == [Entry(5 * DAY + 10 * HOUR + 20 * MINUTE, 0)] && !KeepsWindows(states[1])
  {
    var plan, now := Plan(0, DATETIME_MAX, 9 * HOUR, 10 * HOUR, 40 * MINUTE), 5 * DAY + 9 * HOUR + MINUTE;
    var at := 5 * DAY + 10 * HOUR + 20 * MINUTE;
    assert IntervalPoint(plan, now) == at && RoundsOut(plan, now);
    FirstPointInWindowIff(plan, now);
    states, steps := OneAdded(plan, 1, now, at);
    assert !InItsWindow(plan, states[1].queue[0].time);
  }

  /** A window from 9:00 to 17:00 every hour; due at 16:00, but met by the detector at 3:00 on the next day. */
  lemma LaterRunMayLeaveWindow() returns (states: seq<State>, steps: seq<Step>)
    ensures IsRun(states, steps)
    ensures var plan := Plan(0, DATETIME_MAX, 9 * HOUR, 17 * HOUR, HOUR);
            steps == [Add(plan, 9, 5 * DAY + 15 * HOUR, 0), Poll, Detect(6 * DAY + 3 * HOUR, 6 * DAY + 3 * HOUR, 0)]
    ensures KeepsWindows(states[1])
    ensures states[3].queue == [Entry(6 * DAY + 3 * HOUR, 0)] && !KeepsWindows(states[3])
  {
    var plan, at, again := Plan(0, DATETIME_MAX, 9 * HOUR, 17 * HOUR, HOUR), 5 * DAY + 16 * HOUR, 6 * DAY + 3 * HOUR;
    assert IntervalPoint(plan, 5 * DAY + 15 * HOUR) == at;
    states, steps := OneAdded(plan, 9, 5 * DAY + 15 * HOUR, at);
    assert (5 * DAY) % DAY == 0 && InsideWindow(plan, at);
    DetectOne(states[1], at, again, again);
    assert NextPoint(plan, at, again) == again && ComesTooEarly(plan, at, again);
    NextPointInWindowIff(plan, at, again);
    states, steps := Iterate(states, steps, again, again, 0);
    assert !InItsWindow(plan, states[3].queue[0].time);
  }

  // ----- Daily timers -----

  const TEN: Time := 10 * HOUR

  /** Asked for on the first two days, added on the sixth, and run there. */
  lemma EveryDayRunsOutsideRange() returns (states: seq<State>, steps: seq<Step>)
    ensures AddFuncAtTimeEveryDayRequest(Some(0), Some(DAY), TEN) == Success(Request(EveryDay(TEN), INT_MAX))
    ensures IsRun(states, steps) && |steps| == 3 && steps[0] == Add(EveryDay(TEN), INT_MAX, 5 * DAY, 0)
    ensures states[3].h.fires == [Fire(0, 5 * DAY + TEN, 5 * DAY + TEN)]
    ensures !InRange(0, DAY, 5 * DAY + TEN)
  {
    var due := 5 * DAY + TEN;
    DayOf(5 * DAY, TEN);
    states, steps := OneAdded(EveryDay(TEN), INT_MAX, 5 * DAY, due);
    DetectOne(states[1], due, due, due);
    states, steps := Iterate(states, steps, due, due, 0);
  }

  /** Run at ten, and stopped. */
  lemma StoppedAtTen() returns (states: seq<State>, steps: seq<Step>)
    ensures IsRun(states, steps) && |steps| == 4 && steps[3] == Stop
    ensures var s := OneTimer(EveryDay(TEN), INT_MAX, INT_MAX, []);
            states[4] == s.(running := false, h := s.h.(fires := [Fire(0, DAY + TEN, DAY + TEN)]))
  {
    var due := DAY + TEN;
    states, steps := OneAdded(EveryDay(TEN), INT_MAX, DAY, due);
    DetectOne(states[1], due, due, due);
    states, steps := Iterate(states, steps, due, due, 0);
    states, steps := Extend(states, steps, Stop);
  }

  lemma StartOne(s: State, at: Time)
    requires !s.running && !s.polled && s.timers == map[0 := Timer(EveryDay(TEN), INT_MAX, 0)]
    requires at == DAY + TEN
    ensures Enabled(s, Start(map[0 := at], [Entry(at, 0)]))
    ensures ApplyStart(s, map[0 := at], [Entry(at, 0)])
         == s.(running := true, queue := [Entry(at, 0)], h := s.h.(period := |s.h.fires|))
  {
    assert RestartPoint(EveryDay(TEN), INT_MAX, at) == Some(at);
    assert [Entry(at, 0)][0].id == 0;
    assert IsRebuilt(s.timers, map[0 := at], [Entry(at, 0)]);
  }

  /** Run at ten, stopped, started in the same instant, and run again. */
  lemma RestartMayRepeatDay() returns (states: seq<State>, steps: seq<Step>)
    ensures IsRun(states, steps) && |steps| == 7 && steps[3] == Stop && steps[4].Start?
    ensures states[7].h.fires == [Fire(0, DAY + TEN, DAY + TEN), Fire(0, DAY + TEN, DAY + TEN)]
    ensures states[7].h.asked == [Asked(EveryDay(TEN), INT_MAX)]
  {
    var due := DAY + TEN;
    states, steps := StoppedAtTen();
    StartOne(states[4], due);
    states, steps := Extend(states, steps, Start(map[0 := due], [Entry(due, 0)]));
    DetectOne(states[5], due, due, due);
    states, steps := Iterate(states, steps, due, due, 0);
  }

  // ----- Removal and stop -----

  const DELAY: Plan := Plan(DATETIME_MIN, DATETIME_MAX, 0, 0, 1000)

  /** A timer with one run, removed before it is due, runs all the same. */
  lemma RemovedTimerMayRun() returns (states: seq<State>, steps: seq<Step>)
    ensures IsRun(states, steps) && |steps| == 4 && steps[1] == Remove(0) && steps[3].Detect?
    ensures states[1].h.fires == [] && 0 in states[1].timers
    ensures states[4].h.fires == [Fire(0, DAY + 1000, DAY + 1000)] && states[4].timers == map[]
  {
    var due := DAY + 1000;
    states, steps := OneAdded(DELAY, 1, DAY, due);
    states, steps := Extend(states, steps, Remove(0));
    DetectOne(states[2], due, due, due);
    states, steps := Iterate(states, steps, due, due, 0);
  }

  /** The detector is let in, the manager stopped, a timer added, and the detector submits it. */
  lemma StoppedManagerMayRun() returns (states: seq<State>, steps: seq<Step>)
    ensures IsRun(states, steps)
    ensures steps == [Poll, Stop, Add(DELAY, 1, DAY, 0), Detect(DAY + 1000, DAY + 1000, 0)]
    ensures !states[2].running && states[2].h.fires == []
    ensures !states[4].running && states[4].h.fires == [Fire(0, DAY + 1000, DAY + 1000)]
  {
    var due := DAY + 1000;
    states, steps := [Initial()], [];
    states, steps := Extend(states, steps, Poll);
    states, steps := Extend(states, steps, Stop);
    AddOne(states[2], DELAY, 1, DAY, due);
    states, steps := Extend(states, steps, Add(DELAY, 1, DAY, 0));
    DetectOne(Entered(states[3]), due, due, due);
    states, steps := Extend(states, steps, Detect(due, due, 0));
  }
}
