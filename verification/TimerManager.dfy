/** TimerManager: the checks of its public entry points and the object itself. */
module TimerManagement {
  import opened Common
  import opened TimerSchedule
  import opened TimerSystem

  /** What _addFunc is called with. */
  datatype Request = Request(plan: Plan, repeat: int)

  /** addFunc; None stands for a null date. */
  function AddFuncRequest(startDate: Option<Time>, endDate: Option<Time>, startTime: int, endTime: int,
                          repeat: int, duration: int): (r: Result<Request, TimerError>)
    ensures r.Success? <==>
              && startDate.Some? && endDate.Some? && StartOfDay(startDate.value) <= StartOfDay(endDate.value)
              && 0 <= startTime <= endTime < DAY && repeat > 0 && duration > 0
    ensures r.Success? ==>
              var p := r.value.plan;
              && p.startDate % DAY == 0 && p.startDate <= startDate.value < p.startDate + DAY
              && p.endDate % DAY == 0 && p.endDate <= endDate.value < p.endDate + DAY
              && p.startTime == startTime && p.endTime == endTime && p.duration == duration
              && r.value.repeat == repeat && !Daily(p)
              && (startDate.value >= DATETIME_MIN ==> WellFormed(p))
  {
    if startDate.None? || endDate.None? then Failure(NullDate)
    else
      var start, end := StartOfDay(startDate.value), StartOfDay(endDate.value);
      if end < start then Failure(BadDateRange)
      else if !(0 <= startTime < DAY) || !(0 <= endTime < DAY) || endTime < startTime then Failure(BadTimeOfDay)
      else if repeat <= 0 then Failure(BadRepeat)
      else if duration <= 0 then Failure(BadDuration)
      else Success(Request(Plan(start, end, startTime, endTime, duration), repeat))
  }

  function AddDurationFuncRequest(repeat: int, duration: int): (r: Result<Request, TimerError>)
    ensures r.Success? ==> WellFormed(r.value.plan) && !Daily(r.value.plan) && !Windowed(r.value.plan)
  {
    if repeat <= 0 then Failure(BadRepeat)
    else if duration <= 0 then Failure(BadDuration)
    else Success(Request(Plan(DATETIME_MIN, DATETIME_MAX, 0, 0, duration), repeat))
  }

  function AddDelayFuncRequest(delay: int): (r: Result<Request, TimerError>)
    ensures r.Success? ==> WellFormed(r.value.plan) && !Daily(r.value.plan) && !Windowed(r.value.plan)
  {
    if delay <= 0 then Failure(BadDuration)
    else Success(Request(Plan(DATETIME_MIN, DATETIME_MAX, 0, 0, delay), 1))
  }

  function AddFuncAtTimeRequest(timePoint: Time, now: Time): Result<Request, TimerError> {
    if timePoint <= now then Failure(AlreadyExpired)
    else Success(Request(Plan(StartOfDay(timePoint), DATETIME_MAX, -DAY, TimeOfDay(timePoint), 0), 1))
  }

  function AddFuncAtTimeEveryDayRequest(startDate: Option<Time>, endDate: Option<Time>, time: int)
    : Result<Request, TimerError>
  {
    if startDate.None? || endDate.None? then Failure(NullDate)
    else if !(0 <= time < DAY) then Failure(BadTimeOfDay)
    else if StartOfDay(endDate.value) < StartOfDay(startDate.value) then Failure(BadDateRange)
    else Success(Request(Plan(DATETIME_MIN, DATETIME_MAX, -DAY, time, 0), INT_MAX))
  }

  /** A delayed request asks for exactly one run, due after the delay; on the very first day, after its midnight. */
  lemma DelayedRunsOnceAfterDelay(delay: int, now: Time)
    requires DATETIME_MIN < now && StartOfDay(now) <= DATETIME_MAX
    ensures var r := AddDelayFuncRequest(delay);
            && (r.Success? <==> delay > 0)
            && (r.Success? ==>
                  && r.value.repeat == 1 && r.value.plan.endDate == DATETIME_MAX
                  && AddPoint(r.value.plan, 1, now) == Success(if now < DAY then delay else now + delay))
  {
  }

  /** A repeated request asks for the given number of runs, the first due after the duration. */
  lemma RepeatedRunsFirstAfterDuration(repeat: int, duration: int, now: Time)
    requires DATETIME_MIN < now && StartOfDay(now) <= DATETIME_MAX
    ensures var r := AddDurationFuncRequest(repeat, duration);
            && (r.Success? <==> repeat > 0 && duration > 0)
            && (r.Success? ==>
                  && r.value.repeat == repeat && r.value.plan.duration == duration
                  && r.value.plan.endDate == DATETIME_MAX
                  && AddPoint(r.value.plan, repeat, now) == Success(if now < DAY then duration else now + duration))
  {
  }

  /** Which requests for an instant, and for a time of day, pass. */
  lemma RequestsPassIff(timePoint: Time, now: Time, startDate: Option<Time>, endDate: Option<Time>, time: int)
    ensures AddFuncAtTimeRequest(timePoint, now).Success? <==> timePoint > now
    ensures AddFuncAtTimeRequest(timePoint, now).Success? ==>
              var r := AddFuncAtTimeRequest(timePoint, now).value; r.repeat == 1 && r.plan.endDate == DATETIME_MAX
    ensures AddFuncAtTimeEveryDayRequest(startDate, endDate, time).Success?
            <==> startDate.Some? && endDate.Some? && 0 <= time < DAY
                 && StartOfDay(startDate.value) <= StartOfDay(endDate.value)
  {
  }

  /** A one-shot request made for an instant runs at that very instant. */
  lemma AtTimeRunsAtThatInstant(timePoint: Time, now: Time)
    requires DATETIME_MIN < now < timePoint && StartOfDay(now) <= DATETIME_MAX
    ensures var r := AddFuncAtTimeRequest(timePoint, now);
            && r.Success? && WellFormed(r.value.plan)
            && AddPoint(r.value.plan, r.value.repeat, now) == Success(timePoint)
  {
  }

  /**
   * The documented date range of a daily timer is checked but not kept: whatever the range,
   * the first run is the next occurrence of the time of day.
   */
  lemma EveryDayIgnoresDates(startDate: Time, endDate: Time, time: int, now: Time)
    requires DATETIME_MIN < now && StartOfDay(now) <= DATETIME_MAX
    requires StartOfDay(startDate) <= StartOfDay(endDate) && 0 <= time < DAY
    ensures var r := AddFuncAtTimeEveryDayRequest(Some(startDate), Some(endDate), time);
            && r.Success? && WellFormed(r.value.plan)
            && var today := StartOfDay(now) + time;
               AddPoint(r.value.plan, r.value.repeat, now) == Success(if today < now then today + DAY else today)
  {
  }

  /** The next key of an unordered map: the order of the iteration is not specified. */
  method AnyOf<T>(ids: set<T>) returns (id: T)
    requires ids != {}
    ensures id in ids
  {
    id :| id in ids;
  }

  class TimerManager {
    var stopped: bool
    var polled: bool      // where the detector's thread stands; see TimerSystem.State
    var queue: seq<Entry>
    var timers: map<int, Timer>
    var currentTimerId: int
    var history: History  // kept by the model, not by the program

    function View(): State
      reads this
    {
      State(!stopped, polled, queue, timers, currentTimerId, history)
    }

    constructor ()
      ensures View() == Initial()
    {
      stopped := false;
      polled := false;
      queue := [];
      timers := map[];
      currentTimerId := -1;
      history := Initial().h;
    }

    /** The wraparound search; it ends because the distance to some free id shrinks. */
    method GetNewTimerId() returns (id: int)
      requires QueueInv(View())
      modifies this`currentTimerId
      ensures if |timers| >= INT_MAX then
                id == -1 && currentTimerId == old(currentTimerId)
              else
                IsNewId(timers.Keys, old(currentTimerId), id) && currentTimerId == id
    {
      if |timers| >= INT_MAX {
        return -1;
      }
      ghost var free := FreeIdExists(timers.Keys);
      ghost var start := currentTimerId;
      currentTimerId := NextId(currentTimerId);
      while currentTimerId in timers
        invariant 0 <= currentTimerId <= INT_MAX
        invariant forall other :: 0 <= other <= INT_MAX && other !in timers
                                  ==> Distance(start, currentTimerId) <= Distance(start, other)
        decreases Distance(start, free) - Distance(start, currentTimerId)
      {
        currentTimerId := NextId(currentTimerId);
      }
      return currentTimerId;
    }

    /** _addFunc; the reading of the clock is the parameter now. */
    method AddTimer(plan: Plan, repeat: int, now: Time) returns (r: Result<int, TimerError>)
      requires QueueInv(View())
      requires WellFormed(plan) && 0 < repeat <= INT_MAX && now > DATETIME_MIN
      modifies this
      ensures QueueInv(View())
      ensures r.Success? ==>
                && Enabled(old(View()), Add(plan, repeat, now, r.value))
                && View() == Apply(old(View()), Add(plan, repeat, now, r.value))
                && r.value in timers && r.value !in old(timers)
      ensures r.Failure? ==> View() == old(View())
      ensures r.Success? <==> AddPoint(plan, repeat, now).Success? && |old(timers)| < INT_MAX
    {
      var point := FirstTimePoint(plan, repeat, now);
      if point.Failure? {
        return Failure(point.error);
      }
      var id := GetNewTimerId();
      if id < 0 {
        return Failure(TableFull);
      }
      ghost var before := old(View());
      AddKeepsQueue(before, plan, repeat, now, id);
      timers := timers[id := Timer(plan, repeat, |history.asked|)];
      queue := queue + [Entry(point.value, id)];
      history := history.(asked := history.asked + [Asked(plan, repeat)]);
      return Success(id);
    }

    method RemoveTimer(id: int)
      requires QueueInv(View())
      modifies this
      ensures QueueInv(View())
      ensures View() == Apply(old(View()), Remove(id))
    {
      StepKeepsQueue(View(), Remove(id));
      if id in timers {
        history := ApplyRemove(View(), id).h;
        timers := timers[id := timers[id].(left := 0)];
      }
    }

    /** The test at the head of the detector's loop, made without the lock; false ends the loop. */
    method Poll() returns (goesOn: bool)
      requires QueueInv(View()) && !polled
      modifies this`polled
      ensures QueueInv(View())
      ensures goesOn <==> Enabled(old(View()), TimerSystem.Poll)
      ensures View() == if goesOn then Apply(old(View()), TimerSystem.Poll) else old(View())
    {
      goesOn := !stopped;
      polled := goesOn;
    }

    /**
     * The body of the detector's loop, once the test has let it in. The two clock readings
     * are parameters, and the priority queue may hand out any of its earliest entries.
     */
    method DetectOnce(now: Time, again: Time) returns (ghost top: nat, fired: Option<Fire>)
      requires QueueInv(View()) && polled && again > DATETIME_MIN
      modifies this
      ensures QueueInv(View())
      ensures Enabled(old(View()), Detect(now, again, top))
      ensures View() == Apply(old(View()), Detect(now, again, top))
      ensures history.fires == old(history.fires) + if fired.Some? then [fired.value] else []
    {
      top := 0;
      fired := None;
      ghost var before := View();
      polled := false;
      if queue == [] {
        return;
      }
      var i := Top();
      top := i;
      StepKeepsQueue(before, Detect(now, again, top));
      var s := queue[i];
      if s.time == DATETIME_MIN {
        return;
      }
      if s.time - now > 0 {
        return;
      }
      queue := Without(queue, i);
      if s.id !in timers {
        return;
      }
      var fire := SubmitAndReschedule(s, again);
      fired := Some(fire);
    }

    /** The position of the entry that the priority queue hands out. */
    method Top() returns (i: nat)
      requires queue != []
      ensures IsTop(queue, i)
    {
      var q := queue;
      ghost var first := TopExists(q);
      assert first < |q| && forall j :: 0 <= j < |q| ==> q[first].time <= q[j].time;
      i :| i < |q| && forall j :: 0 <= j < |q| ==> q[i].time <= q[j].time;
    }

    /** The rest of the iteration, for a popped entry whose timer is in the table. */
    method SubmitAndReschedule(popped: Entry, again: Time) returns (fire: Fire)
      requires popped.id in timers
      modifies this
      ensures View() == Submit(old(View()), popped, again)
      ensures history.fires == old(history.fires) + [fire]
    {
      var s := popped;
      var timer := timers[s.id];
      fire := Fire(timer.task, s.time, again);
      history := history.(fires := history.fires + [fire]);
      if timer.left != INT_MAX {
        timer := timer.(left := timer.left - 1);
      }
      if timer.left <= 0 {
        timers := timers - {s.id};
        return;
      }
      var next := NextTimePoint(timer.plan, s.time, again);
      s := s.(time := next);
      if timer.plan.endDate != DATETIME_MAX && s.time > timer.plan.endDate + timer.plan.endTime {
        timers := timers - {s.id};
        return;
      }
      timers := timers[s.id := timer];
      queue := queue + [s];
    }

    method Stop()
      requires QueueInv(View())
      modifies this
      ensures QueueInv(View())
      ensures View() == Apply(old(View()), TimerSystem.Stop)
    {
      if !stopped {
        queue := [];
        stopped := true;
      }
    }

    /** Rebuilds the queue; readings holds the clock reading made for each timer. */
    method Start(readings: map<int, Time>) returns (ghost rebuilt: seq<Entry>)
      requires QueueInv(View())
      requires timers.Keys <= readings.Keys && forall id :: id in readings ==> readings[id] > DATETIME_MIN
      requires stopped ==> !polled  // stop() has waited for the detector
      modifies this
      ensures QueueInv(View())
      ensures Enabled(old(View()), TimerSystem.Start(readings, rebuilt))
      ensures View() == Apply(old(View()), TimerSystem.Start(readings, rebuilt))
    {
      rebuilt := [];
      if !stopped {
        return;
      }
      stopped := false;
      queue := [];
      var invalid: set<int> := {};
      var todo: set<int> := timers.Keys;
      while todo != {}
        invariant timers == old(timers) && currentTimerId == old(currentTimerId)
        invariant history == old(history) && !stopped && !polled
        invariant PlansWellFormed(timers) && Scanned(timers, readings, todo, queue, invalid)
        decreases todo
      {
        var id := AnyOf(todo);
        var point := RestartTimePoint(timers[id].plan, timers[id].left, readings[id]);
        ScanOne(timers, readings, todo, queue, invalid, id);
        if point.None? {
          invalid := invalid + {id};
        } else {
          queue := queue + [Entry(point.value, id)];
        }
        todo := todo - {id};
      }
      rebuilt := queue;
      ScannedAll(timers, readings, queue, invalid);
      StartKeepsQueue(old(View()), readings, rebuilt);
      timers := timers - invalid;
      history := history.(period := |history.fires|);
      assert View() == ApplyStart(old(View()), readings, rebuilt);
    }
  }
}
