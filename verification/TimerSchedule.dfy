/**
 * The arithmetic of TimerManager: when a timer first runs and when it runs next.
 *
 * Instants are microseconds counted from the earliest representable date, and a day has
 * exactly DAY microseconds, so midnights are the multiples of DAY.
 */
module TimerSchedule {
  import opened Common

  type Time = int

  const DAY: int := 86_400_000_000
  const DATETIME_MIN: Time := 0
  /** 9999-12-31, which the timers use as "no end date". */
  const DATETIME_MAX: Time := 3141084 * DAY

  /**
   * What a timer was asked to do. A negative startTime marks a timer that runs at a fixed
   * time of day, held in endTime; duration is then ignored.
   */
  datatype Plan = Plan(startDate: Time, endDate: Time, startTime: int, endTime: int, duration: int)

  datatype TimerError =
    | NullDate
    | BadDateRange
    | BadTimeOfDay
    | BadRepeat
    | BadDuration
    | AlreadyExpired
    | TableFull

  function StartOfDay(t: Time): Time {
    t - t % DAY
  }

  function TimeOfDay(t: Time): int {
    t % DAY
  }

  predicate Daily(p: Plan) {
    p.startTime < 0
  }

  predicate Windowed(p: Plan) {
    p.startTime >= 0 && p.startTime != p.endTime
  }

  /** What the checks of the public entry points leave of the possible plans. */
  predicate WellFormed(p: Plan) {
    && p.startDate % DAY == 0 && p.endDate % DAY == 0
    && p.startDate >= DATETIME_MIN
    && 0 <= p.endTime < DAY
    && (!Daily(p) ==> p.startTime <= p.endTime && p.duration > 0)
  }

  predicate PastEnd(p: Plan, t: Time) {
    p.endDate != DATETIME_MAX && p.endDate + p.endTime < t
  }

  // ----- First run -----

  /** Moves a raw instant into the daily window, onto the grid startTime + k * duration. */
  function AlignToWindow(raw: Time, startTime: int, endTime: int, duration: int): Time
    requires duration > 0
  {
    var day := StartOfDay(raw);
    var point := raw - day;
    if point < startTime then
      day + startTime
    else if point > endTime then
      day + startTime + DAY
    else
      var gap := point - startTime;
      if gap % duration != 0 then day + startTime + duration * (gap / duration + 1) else raw
  }

  function IntervalPoint(p: Plan, now: Time): Time
    requires p.duration > 0
  {
    var raw := if p.startDate >= StartOfDay(now) then p.startDate + p.startTime + p.duration else now + p.duration;
    if p.startTime != p.endTime then AlignToWindow(raw, p.startTime, p.endTime, p.duration) else raw
  }

  function DailyPoint(p: Plan, now: Time): Time {
    var first := p.startDate + p.endTime;
    if first >= now then
      first
    else
      var today := StartOfDay(now) + p.endTime;
      if today < now then today + DAY else today
  }

  /** First run of a timer that is being added, or why it is refused. */
  function AddPoint(p: Plan, repeat: int, now: Time): Result<Time, TimerError>
    requires WellFormed(p)
  {
    if p.endDate < StartOfDay(now) then
      Failure(BadDateRange)
    else if PastEnd(p, now) then
      Failure(AlreadyExpired)
    else if Daily(p) then
      if p.startDate + p.endTime < now && repeat <= 1 then Failure(AlreadyExpired) else Success(DailyPoint(p, now))
    else
      Success(IntervalPoint(p, now))
  }

  /** First run of a timer that survives a restart, or None when the restart drops it. */
  function RestartPoint(p: Plan, left: int, now: Time): Option<Time>
    requires WellFormed(p)
  {
    if left <= 0 || PastEnd(p, now) then
      None
    else if Daily(p) then
      if p.startDate + p.endTime < now && left <= 1 then None else Some(DailyPoint(p, now))
    else
      Some(IntervalPoint(p, now))
  }

  /** The computation of _addFunc, as it is written there. */
  method FirstTimePoint(p: Plan, repeat: int, now: Time) returns (r: Result<Time, TimerError>)
    requires WellFormed(p)
    ensures r == AddPoint(p, repeat, now)
  {
    var today := StartOfDay(now);
    if !(p.endDate >= today) {
      return Failure(BadDateRange);
    }
    if p.endDate != DATETIME_MAX {
      if !(p.endDate + p.endTime >= now) {
        return Failure(AlreadyExpired);
      }
    }

    var timePoint;
    if p.startTime < 0 {
      var firstStartTime := p.startDate + p.endTime;
      if firstStartTime >= now {
        timePoint := firstStartTime;
      } else {
        if !(repeat > 1) {
          return Failure(AlreadyExpired);
        }
        timePoint := today + p.endTime;
        if timePoint < now {
          timePoint := timePoint + DAY;
        }
      }
    } else {
      timePoint := if p.startDate >= today then p.startDate + p.startTime + p.duration else now + p.duration;
      ghost var raw := timePoint;
      if p.startTime != p.endTime {
        var pointDate := StartOfDay(timePoint);
        var point := timePoint - pointDate;
        if point < p.startTime {
          timePoint := pointDate + p.startTime;
        } else if point > p.endTime {
          timePoint := pointDate + p.startTime + DAY;
        } else {
          var gap := point - p.startTime;
          if gap % p.duration != 0 {
            var x := gap / p.duration + 1;
            timePoint := pointDate + p.startTime + p.duration * x;
          }
        }
        assert timePoint == AlignToWindow(raw, p.startTime, p.endTime, p.duration);
      }
    }
    r := Success(timePoint);
  }

  /** The body of the loop in start() for one timer; None marks the timer as invalid. */
  method RestartTimePoint(p: Plan, left: int, now: Time) returns (r: Option<Time>)
    requires WellFormed(p)
    ensures r == RestartPoint(p, left, now)
  {
    if left <= 0 || (p.endDate != DATETIME_MAX && p.endDate + p.endTime < now) {
      return None;
    }
    var timePoint;
    if p.startTime < 0 {
      var firstStartTime := p.startDate + p.endTime;
      if firstStartTime >= now {
        timePoint := firstStartTime;
      } else {
        if left <= 1 {
          return None;
        }
        timePoint := StartOfDay(now) + p.endTime;
        if timePoint < now {
          timePoint := timePoint + DAY;
        }
      }
    } else {
      timePoint :=
        if p.startDate >= StartOfDay(now) then p.startDate + p.startTime + p.duration else now + p.duration;
      ghost var raw := timePoint;
      if p.startTime != p.endTime {
        var pointDate := StartOfDay(timePoint);
        var point := timePoint - pointDate;
        if point < p.startTime {
          timePoint := pointDate + p.startTime;
        } else if point > p.endTime {
          timePoint := pointDate + p.startTime + DAY;
        } else {
          var gap := point - p.startTime;
          if gap % p.duration != 0 {
            var x := gap / p.duration + 1;
            timePoint := pointDate + p.startTime + p.duration * x;
          }
        }
        assert timePoint == AlignToWindow(raw, p.startTime, p.endTime, p.duration);
      }
    }
    r := Some(timePoint);
  }

  /** start() and _addFunc agree on every timer that both accept, and accept the same ones. */
  lemma RestartAgreesWithAdd(p: Plan, repeat: int, now: Time)
    requires WellFormed(p) && repeat > 0
    requires StartOfDay(now) <= DATETIME_MAX
    ensures RestartPoint(p, repeat, now).Some? <==> AddPoint(p, repeat, now).Success?
    ensures AddPoint(p, repeat, now).Success? ==> RestartPoint(p, repeat, now).value == AddPoint(p, repeat, now).value
  {
    if !PastEnd(p, now) && p.endDate != DATETIME_MAX && p.endDate < StartOfDay(now) {
      MidnightGap(p.endDate, StartOfDay(now));
    }
  }

  lemma MidnightGap(a: Time, b: Time)
    requires a % DAY == 0 && b % DAY == 0 && a < b
    ensures a + DAY <= b
  {
  }

  // ----- Alignment -----

  /** Grid points lie a whole number of steps, possibly none, after the origin. */
  predicate OnGrid(p: Time, origin: Time, step: int)
    requires step > 0
  {
    p >= origin && (p - origin) % step == 0
  }

  /**
   * An instant whose time of day has not passed the window's end moves to the first grid
   * point not before it, overshooting the end by less than one step; any later instant
   * moves to the start of the next day's window.
   */
  lemma AlignIsLeastGridPoint(raw: Time, startTime: int, endTime: int, duration: int)
    requires 0 <= startTime <= endTime < DAY && duration > 0
    ensures var aligned := AlignToWindow(raw, startTime, endTime, duration);
            var origin := StartOfDay(raw) + startTime;
            if TimeOfDay(raw) <= endTime then
              && OnGrid(aligned, origin, duration) && aligned >= raw
              && (forall q :: OnGrid(q, origin, duration) && q >= raw ==> aligned <= q)
              && aligned < StartOfDay(raw) + endTime + duration
            else
              aligned == origin + DAY
  {
    var origin := StartOfDay(raw) + startTime;
    var gap := raw - origin;
    if TimeOfDay(raw) > endTime {
    } else if gap < 0 {
      assert 0 % duration == 0;
    } else {
      RoundUp(gap, duration);
      var aligned := AlignToWindow(raw, startTime, endTime, duration);
      assert aligned - origin == if gap % duration == 0 then gap else duration * (gap / duration + 1);
      forall q | OnGrid(q, origin, duration) && q >= raw
        ensures aligned <= q
      {
        LeastMultiple(gap, duration, q - origin);
      }
    }
  }

  lemma RoundUp(gap: int, step: int)
    requires gap >= 0 && step > 0
    ensures (step * (gap / step + 1)) % step == 0
    ensures gap < step * (gap / step + 1) <= gap + step
  {
    MultipleMod(gap / step + 1, step);
    assert step * (gap / step + 1) == step * (gap / step) + step;
  }

  lemma {:induction false} MultipleMod(k: nat, step: int)
    requires step > 0
    ensures (step * k) % step == 0
  {
    if k == 0 {
      assert step * k == 0;
    } else {
      MultipleMod(k - 1, step);
      assert step * k == step * (k - 1) + step;
      AddStepMod(step * (k - 1), step);
    }
  }

  lemma AddStepMod(x: int, step: int)
    requires step > 0 && x >= 0
    ensures (x + step) % step == x % step
  {
    var q := x / step;
    var r := x % step;
    assert x + step == step * (q + 1) + r;
    DivisionUnique(x + step, step, q + 1, r);
  }

  lemma DivisionUnique(x: int, step: int, q: int, r: int)
    requires step > 0 && x == step * q + r && 0 <= r < step
    ensures x % step == r
  {
    var k := x / step - q;
    assert step * k == step * (x / step) - step * q;
    assert k >= 1 ==> step * k >= step;
    assert k <= -1 ==> step * k <= -step;
  }

  /** A multiple of step that is not below gap is not below gap rounded up. */
  lemma LeastMultiple(gap: int, step: int, q: int)
    requires gap >= 0 && step > 0 && q >= gap && q % step == 0
    ensures if gap % step == 0 then gap <= q else step * (gap / step + 1) <= q
  {
    var m := q / step;
    assert q == step * m;
    var n := gap / step;
    assert m <= n ==> step * m <= step * n;
    assert m > n ==> step * (n + 1) <= step * m;
  }

  /**
   * The daily window is promised to be respected; the first run respects it exactly when
   * rounding up to the grid does not pass the window's end.
   */
  lemma FirstRunInsideWindowIff(raw: Time, startTime: int, endTime: int, duration: int)
    requires 0 <= startTime <= endTime < DAY && duration > 0
    ensures var aligned := AlignToWindow(raw, startTime, endTime, duration);
            var gap := TimeOfDay(raw) - startTime;
            (exists day :: day % DAY == 0 && day + startTime <= aligned <= day + endTime)
            <==>
            (gap < 0 || TimeOfDay(raw) > endTime || gap % duration == 0
             || duration * (gap / duration + 1) % DAY <= endTime - startTime)
  {
    var day := StartOfDay(raw);
    var gap := TimeOfDay(raw) - startTime;
    var aligned := AlignToWindow(raw, startTime, endTime, duration);
    InsideSomeWindowIff(day, startTime, endTime, aligned - day - startTime);
    if gap >= 0 && TimeOfDay(raw) <= endTime && gap % duration != 0 {
      RoundUp(gap, duration);
    }
  }

  lemma MidnightsApart(a: Time, b: Time)
    requires a % DAY == 0 && b % DAY == 0
    ensures a - b == DAY * ((a - b) / DAY)
  {
  }

  lemma InsideSomeWindowIff(day: Time, startTime: int, endTime: int, offset: nat)
    requires day % DAY == 0 && 0 <= startTime <= endTime < DAY
    ensures (exists d :: d % DAY == 0 && d + startTime <= day + startTime + offset <= d + endTime)
            <==> offset % DAY <= endTime - startTime
  {
    var home := day + (offset - offset % DAY);
    assert home % DAY == 0;
    assert offset % DAY <= endTime - startTime
           ==> home + startTime <= day + startTime + offset <= home + endTime;
    forall d | d % DAY == 0 && d + startTime <= day + startTime + offset <= d + endTime
      ensures offset % DAY <= endTime - startTime
    {
      MidnightsApart(d, day);
      DivisionUnique(offset, DAY, (d - day) / DAY, day + offset - d);
    }
  }

  /** The grid index is narrowed to a 32-bit int; it always fits exactly when a step has at least 41 microseconds. */
  lemma GridIndexFitsIntIff(duration: int)
    requires duration > 0
    ensures (forall gap :: 0 <= gap < DAY ==> gap / duration + 1 <= INT_MAX) <==> duration >= 41
  {
    if duration >= 41 {
      forall gap | 0 <= gap < DAY
        ensures gap / duration + 1 <= INT_MAX
      {
        var k := gap / duration;
        assert k >= INT_MAX ==> duration * k >= 41 * INT_MAX;
      }
    } else {
      var k := (DAY - 1) / duration;
      assert duration * k <= 40 * k;
      assert (DAY - 1) / duration + 1 > INT_MAX;
    }
  }

  /** A daily timer first runs at the first occurrence of its time of day, not before now nor its start date. */
  lemma DailyPointIsNextOccurrence(p: Plan, now: Time)
    requires WellFormed(p) && Daily(p)
    ensures var t := DailyPoint(p, now);
            && TimeOfDay(t) == p.endTime && t >= now && t >= p.startDate + p.endTime
            && (forall q :: TimeOfDay(q) == p.endTime && q >= now && q >= p.startDate + p.endTime ==> t <= q)
  {
  }

  /** Every first run comes after the earliest date, so the sentinel of the detector loop is never queued. */
  lemma FirstPointsAreAfterMin(p: Plan, n: int, now: Time)
    requires WellFormed(p) && now > DATETIME_MIN
    ensures AddPoint(p, n, now).Success? ==> AddPoint(p, n, now).value > DATETIME_MIN
    ensures RestartPoint(p, n, now).Some? ==> RestartPoint(p, n, now).value > DATETIME_MIN
  {
    if !Daily(p) && Windowed(p) {
      var raw :=
        if p.startDate >= StartOfDay(now) then p.startDate + p.startTime + p.duration else now + p.duration;
      AlignIsLeastGridPoint(raw, p.startTime, p.endTime, p.duration);
    }
  }

  // ----- First run, as asked for -----

  /** Which timers _addFunc accepts: the end of their last day, or their one instant, lies ahead. */
  lemma AddAcceptsIff(p: Plan, repeat: int, now: Time)
    requires WellFormed(p)
    ensures AddPoint(p, repeat, now).Success?
            <==> && p.endDate >= StartOfDay(now)
                 && (p.endDate == DATETIME_MAX || p.endDate + p.endTime >= now)
                 && (p.startTime >= 0 || p.startDate + p.endTime >= now || repeat > 1)
  {
  }

  /** Which timers start() keeps. */
  lemma RestartKeepsIff(p: Plan, left: int, now: Time)
    requires WellFormed(p)
    ensures RestartPoint(p, left, now).Some?
            <==> && left > 0 && (p.endDate == DATETIME_MAX || p.endDate + p.endTime >= now)
                 && (p.startTime >= 0 || p.startDate + p.endTime >= now || left > 1)
  {
  }

  /** A duration after the start of the first day that is allowed, or after now when that day has passed. */
  predicate IsRawPoint(p: Plan, now: Time, raw: Time) {
    && (p.startDate >= now - now % DAY ==> raw == p.startDate + p.startTime + p.duration)
    && (p.startDate < now - now % DAY ==> raw == now + p.duration)
  }

  /** Without a window an interval timer first runs just then. */
  lemma FirstRunWithoutWindow(p: Plan, n: int, now: Time)
    requires WellFormed(p) && p.startTime == p.endTime
    ensures AddPoint(p, n, now).Success? ==> IsRawPoint(p, now, AddPoint(p, n, now).value)
    ensures RestartPoint(p, n, now).Some? ==> IsRawPoint(p, now, RestartPoint(p, n, now).value)
  {
  }

  /** What the first run of a timer with a window is, given the raw instant. */
  ghost predicate IsFirstInWindow(p: Plan, raw: Time, t: Time)
    requires p.duration > 0
  {
    var origin := raw - raw % DAY + p.startTime;
    if raw % DAY <= p.endTime then
      OnGrid(t, origin, p.duration) && t >= raw && forall q :: OnGrid(q, origin, p.duration) && q >= raw ==> t <= q
    else
      t == origin + DAY
  }

  /** With a window it is the least grid point from then on, or the start of the next day's window. */
  lemma FirstRunWithWindow(p: Plan, n: int, now: Time, raw: Time)
    requires WellFormed(p) && Windowed(p) && IsRawPoint(p, now, raw)
    ensures AddPoint(p, n, now).Success? ==> IsFirstInWindow(p, raw, AddPoint(p, n, now).value)
    ensures RestartPoint(p, n, now).Some? ==> IsFirstInWindow(p, raw, RestartPoint(p, n, now).value)
  {
    AlignIsLeastGridPoint(raw, p.startTime, p.endTime, p.duration);
  }

  /** A daily timer first runs at the least instant of its time of day from now and from its start date on. */
  lemma FirstRunOfDaily(p: Plan, n: int, now: Time)
    requires WellFormed(p) && Daily(p)
    ensures AddPoint(p, n, now).Success? ==> IsFirstOfDaily(p, now, AddPoint(p, n, now).value)
    ensures RestartPoint(p, n, now).Some? ==> IsFirstOfDaily(p, now, RestartPoint(p, n, now).value)
  {
    DailyPointIsNextOccurrence(p, now);
  }

  ghost predicate IsFirstOfDaily(p: Plan, now: Time, t: Time) {
    && TimeOfDay(t) == p.endTime && t >= now && t >= p.startDate + p.endTime
    && forall q :: TimeOfDay(q) == p.endTime && q >= now && q >= p.startDate + p.endTime ==> t <= q
  }

  // ----- Next run -----

  /** The instant queued after a run that was due at s.m_time_point, at the second clock reading now. */
  function NextPoint(p: Plan, due: Time, now: Time): Time {
    var today := StartOfDay(now);
    if p.startTime >= 0 then
      var t := if due + p.duration < now then now else due + p.duration;
      if p.startTime != p.endTime && t > today + p.endTime then today + p.startTime + DAY else t
    else
      due + (today - StartOfDay(due) + DAY)
  }

  /** The end of the detector's loop, as it is written there. */
  method NextTimePoint(p: Plan, due: Time, now: Time) returns (timePoint: Time)
    ensures timePoint == NextPoint(p, due, now)
  {
    timePoint := due;
    var today := StartOfDay(now);
    if p.startTime >= 0 {
      timePoint := timePoint + p.duration;
      if timePoint < now {
        timePoint := now;
      }
      if p.startTime != p.endTime && timePoint > today + p.endTime {
        timePoint := today + p.startTime + DAY;
      }
    } else {
      timePoint := timePoint + (today - StartOfDay(timePoint) + DAY);
    }
  }

  /** When the clock has not stepped back since the run fell due, the next run is strictly later. */
  lemma NextPointIsLater(p: Plan, due: Time, now: Time)
    requires WellFormed(p) && due <= now
    ensures NextPoint(p, due, now) > due
    ensures Daily(p) ==> NextPoint(p, due, now) > now
    ensures !Daily(p) ==> NextPoint(p, due, now) >= now
  {
  }

  /** Without a window runs keep their distance; with one, exactly when the step reaches at most tomorrow's start. */
  lemma NextPointKeepsDistance(p: Plan, due: Time, now: Time)
    requires WellFormed(p) && !Daily(p) && due <= now
    ensures NextPoint(p, due, now) >= due + p.duration
            <==> !Windowed(p) || due + p.duration <= StartOfDay(now) + p.startTime + DAY
  {
  }

  /** q is not too early for the run after the one that was due. */
  predicate MayFollow(p: Plan, due: Time, now: Time, q: Time) {
    q >= due + p.duration && q >= now
  }

  /**
   * The next run of an interval timer is the least instant that is a duration after the run
   * that was due and not in the past; with a window, as long as that is not past today's end,
   * and else the start of tomorrow's window.
   */
  lemma NextRunIsLeast(p: Plan, due: Time, now: Time)
    requires WellFormed(p) && !Daily(p)
    ensures var t, today := NextPoint(p, due, now), now - now % DAY;
            if p.startTime == p.endTime || MayFollow(p, due, now, today + p.endTime) then
              MayFollow(p, due, now, t) && forall q :: MayFollow(p, due, now, q) ==> t <= q
            else
              t == today + DAY + p.startTime
  {
  }

  /** A window timer stays in today's window or moves to tomorrow's start, unless the step ends before today's start. */
  lemma NextPointRespectsWindowIff(p: Plan, due: Time, now: Time)
    requires WellFormed(p) && Windowed(p) && due <= now
    ensures var t := NextPoint(p, due, now);
            var today := StartOfDay(now);
            (today + p.startTime <= t <= today + p.endTime || t == today + DAY + p.startTime)
            <==> due + p.duration >= today + p.startTime || now >= today + p.startTime
  {
  }

  /** A daily timer keeps its time of day and lands on the day after now. */
  lemma NextPointOfDaily(p: Plan, due: Time, now: Time)
    requires WellFormed(p) && Daily(p)
    ensures TimeOfDay(NextPoint(p, due, now)) == TimeOfDay(due)
    ensures StartOfDay(NextPoint(p, due, now)) == StartOfDay(now) + DAY
  {
  }

  /**
   * A restart recomputes a daily timer's next run from the clock alone. It lands on the
   * calendar day of the last run, giving that day a second one, exactly when the restart
   * happens on that very day and not after the timer's time of day.
   */
  lemma RestartRepeatsDayIff(p: Plan, left: int, at: Time, now: Time)
    requires WellFormed(p) && Daily(p) && RestartPoint(p, left, now).Some?
    requires p.startDate + p.endTime <= at <= now
    ensures StartOfDay(RestartPoint(p, left, now).value) == StartOfDay(at)
            <==> StartOfDay(now) == StartOfDay(at) && TimeOfDay(now) <= p.endTime
  {
    DailyPointDay(p, now);
    DaysInOrder(at, now);
    if now <= p.startDate + p.endTime {
      DayOf(p.startDate, p.endTime);
    }
  }

  /** The day of the first run of a daily timer: its start date, today, or tomorrow. */
  lemma DailyPointDay(p: Plan, now: Time)
    requires WellFormed(p) && Daily(p)
    ensures StartOfDay(DailyPoint(p, now)) == if now <= p.startDate + p.endTime then p.startDate
                                              else if TimeOfDay(now) <= p.endTime then StartOfDay(now)
                                              else StartOfDay(now) + DAY
  {
    DayOf(p.startDate, p.endTime);
    DayOf(StartOfDay(now), p.endTime);
    DayOf(StartOfDay(now) + DAY, p.endTime);
  }

  lemma DayOf(midnight: Time, point: int)
    requires midnight % DAY == 0 && 0 <= point < DAY
    ensures StartOfDay(midnight + point) == midnight
  {
  }

  lemma DaysInOrder(a: Time, b: Time)
    requires a <= b
    ensures StartOfDay(a) <= StartOfDay(b)
  {
  }
}
