/** TimeDelta: a signed count of microseconds and its normalised parts. */
module TimeDelta {
  import opened Common

  const MILLI: int := 1000
  const SECOND: int := 1_000_000
  const MINUTE: int := 60_000_000
  const HOUR: int := 3_600_000_000
  const DAY: int := 86_400_000_000
  const MAX_TICKS: int := 100_000_000 * DAY - 1
  const MIN_TICKS: int := -99_999_999 * DAY
  const INT64_MIN: int := -0x8000_0000_0000_0000
  const INT64_MAX: int := 0x7FFF_FFFF_FFFF_FFFF

  /** C++ division and remainder, which round toward zero. */
  function Quot(a: int, b: int): int
    requires b > 0
  {
    if a >= 0 then a / b else -(-a / b)
  }

  function Rem(a: int, b: int): int
    requires b > 0
  {
    a - Quot(a, b) * b
  }

  function Abs(a: int): int {
    if a < 0 then -a else a
  }

  /** hours(), minutes() and seconds() of boost's time_duration. */
  function BoostHours(t: int): int {
    Quot(t, HOUR)
  }

  function BoostMinutes(t: int): int {
    Rem(Quot(t, MINUTE), 60)
  }

  function BoostSeconds(t: int): int {
    Rem(Quot(t, SECOND), 60)
  }

  /** The ticks that a negative delta has beyond its rounded-down days. */
  function PositiveTicks(t: int): int {
    Abs((Quot(t, DAY) - 1) * DAY) + t
  }

  function Days(t: int): int {
    if t < 0 then (if Rem(t, DAY) == 0 then Quot(t, DAY) else Quot(t, DAY) - 1) else Abs(Quot(BoostHours(t), 24))
  }

  function Hours(t: int): int {
    if t < 0 then (if Rem(t, DAY) == 0 then 0 else BoostHours(PositiveTicks(t))) else Rem(Abs(BoostHours(t)), 24)
  }

  function Minutes(t: int): int {
    if t < 0 then (if Rem(t, DAY) == 0 then 0 else BoostMinutes(PositiveTicks(t))) else Abs(BoostMinutes(t))
  }

  function Seconds(t: int): int {
    if t < 0 then (if Rem(t, DAY) == 0 then 0 else BoostSeconds(PositiveTicks(t))) else Abs(BoostSeconds(t))
  }

  function Microseconds(t: int): int {
    if t < 0 then
      if Rem(t, DAY) == 0 then 0 else if Rem(t, 1000) == 0 then 0 else 1000 + Rem(t, 1000)
    else
      Abs(Rem(t, 1000))
  }

  function Milliseconds(t: int): int {
    if t < 0 then
      if Rem(t, DAY) == 0 then 0
      else
        var milli := Rem(PositiveTicks(t), SECOND);
        if milli == 0 then 0 else Quot(milli - Microseconds(t), 1000)
    else
      Quot(Rem(Abs(t), SECOND) - Microseconds(t), 1000)
  }

  /** The six-argument constructor; None when a check throws. */
  function Make(days: int, hours: int, minutes: int, seconds: int, milliseconds: int, microseconds: int): Option<int> {
    if !ArgumentsInRange(days, hours, minutes, seconds, milliseconds, microseconds) then None
    else
      var total := ((((days * 24 + hours) * 60 + minutes) * 60 + seconds) * 1000 + milliseconds) * 1000 + microseconds;
      if MIN_TICKS <= total <= MAX_TICKS then Some(total) else None
  }

  predicate ArgumentsInRange(days: int, hours: int, minutes: int, seconds: int, milliseconds: int, microseconds: int) {
    && -99_999_999 <= days <= 99_999_999 && -100_000 <= hours <= 100_000 && -100_000 <= minutes <= 100_000
    && -8_639_900 <= seconds <= 8_639_900
    && -86_399_000_000 <= milliseconds <= 86_399_000_000 && -86_399_000_000 <= microseconds <= 86_399_000_000
  }

  /** What the constructor accepts, and the ticks it then counts. */
  lemma MakeAcceptsIff(days: int, hours: int, minutes: int, seconds: int, milliseconds: int, microseconds: int)
    ensures var total := days * 86_400_000_000 + hours * 3_600_000_000 + minutes * 60_000_000
                         + seconds * 1_000_000 + milliseconds * 1000 + microseconds;
            Make(days, hours, minutes, seconds, milliseconds, microseconds)
            == if && -99_999_999 <= days <= 99_999_999 && -100_000 <= hours <= 100_000
                  && -100_000 <= minutes <= 100_000 && -8_639_900 <= seconds <= 8_639_900
                  && -86_399_000_000 <= milliseconds <= 86_399_000_000
                  && -86_399_000_000 <= microseconds <= 86_399_000_000
                  && -99_999_999 * 86_400_000_000 <= total < 100_000_000 * 86_400_000_000
               then Some(total) else None
  {
  }

  predicate InInt64(x: int) {
    INT64_MIN <= x <= INT64_MAX
  }

  /** No intermediate of the guarded constructor leaves the 64-bit range. */
  lemma ConstructorNeverOverflows(
    days: int, hours: int, minutes: int, seconds: int, milliseconds: int, microseconds: int)
    requires ArgumentsInRange(days, hours, minutes, seconds, milliseconds, microseconds)
    ensures var h := days * 24 + hours;
            var m := h * 60 + minutes;
            var s := m * 60 + seconds;
            var ms := s * 1000 + milliseconds;
            && InInt64(days * 24) && InInt64(h) && InInt64(h * 60) && InInt64(m) && InInt64(m * 60) && InInt64(s)
            && InInt64(s * 1000) && InInt64(ms) && InInt64(ms * 1000) && InInt64(ms * 1000 + microseconds)
  {
  }

  lemma PositiveTicksWithinDay(t: int)
    requires t < 0 && Rem(t, DAY) != 0
    ensures 0 < PositiveTicks(t) < DAY && PositiveTicks(t) == t - Days(t) * DAY
  {
  }

  /** The parts of a count within one day. */
  lemma PartsOfDay(u: int)
    requires 0 <= u < DAY
    ensures var h, m, s := BoostHours(u), BoostMinutes(u), BoostSeconds(u);
            && 0 <= h < 24 && 0 <= m < 60 && 0 <= s < 60
            && u == h * HOUR + m * MINUTE + s * SECOND + u % SECOND
  {
  }

  lemma PartsOfSecond(x: int, micro: int)
    requires 0 <= x < SECOND && micro == x % 1000
    ensures 0 <= Quot(x - micro, 1000) < 1000 && x == Quot(x - micro, 1000) * MILLI + micro
  {
  }

  /** Parts in their ranges that add up to t ticks; only the days may be negative. */
  ghost predicate AddsUp(t: int, d: int, h: int, m: int, s: int, milli: int, micro: int) {
    && 0 <= h < 24 && 0 <= m < 60 && 0 <= s < 60 && 0 <= milli < 1000 && 0 <= micro < 1000
    && t == d * DAY + h * HOUR + m * MINUTE + s * SECOND + milli * MILLI + micro
  }

  /** Parts that are those of the rest u of a day add up to days and rest. */
  lemma PartsOfRest(t: int, d: int, u: int)
    requires 0 <= u < DAY && t == d * DAY + u
    ensures AddsUp(t, d, BoostHours(u), BoostMinutes(u), BoostSeconds(u), Quot(u % SECOND - u % 1000, 1000), u % 1000)
  {
    PartsOfDay(u);
    PartsOfSecond(u % SECOND, u % 1000);
  }

  lemma NegativeAddsUp(t: int)
    requires t < 0 && Rem(t, DAY) != 0
    ensures AddsUp(t, Days(t), Hours(t), Minutes(t), Seconds(t), Milliseconds(t), Microseconds(t))
  {
    var u := PositiveTicks(t);
    PositiveTicksWithinDay(t);
    MicrosecondsOfNegative(t, -Days(t) * (DAY / 1000));
    MillisecondsOfNegative(t);
    PartsOfRest(t, Days(t), u);
  }

  lemma RemainderOfThousand(x: int, q: int, r: int)
    requires x == q * 1000 + r && 0 <= r < 1000
    ensures x % 1000 == r
  {
  }

  lemma MicrosecondsOfNegative(t: int, thousands: int)
    requires t < 0 && Rem(t, DAY) != 0
    ensures Microseconds(t) == (t + thousands * 1000) % 1000
  {
    var q, r := -t / 1000, -t % 1000;
    assert -t == q * 1000 + r && Rem(t, 1000) == -r;
    if r == 0 {
      RemainderOfThousand(t + thousands * 1000, thousands - q, 0);
    } else {
      RemainderOfThousand(t + thousands * 1000, thousands - q - 1, 1000 - r);
    }
  }

  lemma MillisecondsOfNegative(t: int)
    requires t < 0 && Rem(t, DAY) != 0 && Microseconds(t) == PositiveTicks(t) % 1000 && PositiveTicks(t) > 0
    ensures Milliseconds(t) == Quot(PositiveTicks(t) % SECOND - PositiveTicks(t) % 1000, 1000)
  {
    var u := PositiveTicks(t);
    var q, r := u / SECOND, u % SECOND;
    assert Rem(u, SECOND) == r;
    if r == 0 {
      RemainderOfThousand(u, q * 1000, 0);
    }
  }

  lemma NonNegativeAddsUp(t: int)
    requires t >= 0
    ensures AddsUp(t, Days(t), Hours(t), Minutes(t), Seconds(t), Milliseconds(t), Microseconds(t))
  {
    var d, u := t / DAY, t % DAY;
    HoursOfDays(d, u);
    MinutesOfDays(d, u);
    SecondsOfDays(d, u);
    PartsOfRest(t, d, u);
  }

  lemma HoursOfDays(d: nat, u: int)
    requires 0 <= u < DAY
    ensures Days(d * DAY + u) == d && Hours(d * DAY + u) == BoostHours(u)
  {
    assert (d * DAY + u) / HOUR == d * 24 + u / HOUR;
  }

  lemma MinutesOfDays(d: nat, u: int)
    requires 0 <= u < DAY
    ensures Minutes(d * DAY + u) == BoostMinutes(u)
  {
    assert (d * DAY + u) / MINUTE == d * 1440 + u / MINUTE;
  }

  lemma SecondsOfDays(d: nat, u: int)
    requires 0 <= u < DAY
    ensures Seconds(d * DAY + u) == BoostSeconds(u)
    ensures Microseconds(d * DAY + u) == u % 1000
    ensures Milliseconds(d * DAY + u) == Quot(u % SECOND - u % 1000, 1000)
  {
    assert (d * DAY + u) / SECOND == d * 86400 + u / SECOND;
    assert (d * DAY + u) % SECOND == u % SECOND;
  }

  /** For every count of ticks the parts are in range, only days can be negative, and they add up to the ticks. */
  lemma PartsAddUp(t: int)
    ensures AddsUp(t, Days(t), Hours(t), Minutes(t), Seconds(t), Milliseconds(t), Microseconds(t))
  {
    if t >= 0 {
      NonNegativeAddsUp(t);
    } else if Rem(t, DAY) != 0 {
      NegativeAddsUp(t);
    }
  }

  /** Rebuilding a delta from its parts gives it back. */
  lemma RebuildIsIdentity(t: int)
    requires MIN_TICKS <= t <= MAX_TICKS
    ensures Make(Days(t), Hours(t), Minutes(t), Seconds(t), Milliseconds(t), Microseconds(t)) == Some(t)
  {
    PartsAddUp(t);
  }
}
