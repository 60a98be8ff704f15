/** Quiet hours of a subscription (app/services/subscription_matching.py) in a time zone with a constant
    offset from UTC. Instants are microseconds since the epoch, in UTC. */
module QuietHours {
  import opened Wrappers
  import opened Instants

  datatype HourMinute = HourMinute(hour: int, minute: int)

  /** What "HH:MM" parses to. */
  type ClockTime = c: HourMinute | 0 <= c.hour < 24 && 0 <= c.minute < 60 witness HourMinute(0, 0)

  datatype Config = Config(start: Option<ClockTime>, end: Option<ClockTime>, utcOffset: int)

  function OfDay(c: ClockTime): (t: int)
    ensures 0 <= t < DAY
  {
    (c.hour * 60 + c.minute) * MINUTE
  }

  function LocalTime(now: Time, config: Config): int {
    (now + config.utcOffset) % DAY
  }

  predicate IsInQuietHours(now: Time, config: Config) {
    if config.start.None? || config.end.None? then false
    else
      var start, end := OfDay(config.start.value), OfDay(config.end.value);
      var local := LocalTime(now, config);
      if start <= end then start <= local < end
      else local >= start || local < end
  }

  function NextQuietHoursEnd(now: Time, config: Config): Option<Time> {
    if config.start.None? || config.end.None? || !IsInQuietHours(now, config) then None
    else
      var localNow := now + config.utcOffset;
      var midnight := localNow / DAY * DAY;
      var candidate := midnight + OfDay(config.end.value);
      var exit := if candidate <= localNow then candidate + DAY else candidate;
      Some(exit - config.utcOffset)
  }

  /** How long a quiet period lasts; a range that ends when it starts is empty. */
  function QuietLength(config: Config): (length: int)
    ensures 0 <= length < DAY
  {
    if config.start.None? || config.end.None? then 0
    else (OfDay(config.end.value) - OfDay(config.start.value)) % DAY
  }

  /** The quiet instants are the last `QuietLength` of each day-long cycle that ends at the end time,
      whether or not the range wraps past midnight. */
  lemma QuietIsTheTailOfTheCycle(now: Time, config: Config)
    requires config.start.Some? && config.end.Some?
    ensures IsInQuietHours(now, config)
            <==> (now + config.utcOffset - OfDay(config.end.value)) % DAY >= DAY - QuietLength(config)
  {
    var start, end := OfDay(config.start.value), OfDay(config.end.value);
    var localNow := now + config.utcOffset;
    var day, local := localNow / DAY, localNow % DAY;
    assert localNow == day * DAY + local;
    if local >= end {
      ModUnique(localNow - end, day, local - end);
    } else {
      ModUnique(localNow - end, day - 1, local - end + DAY);
    }
    if start <= end {
      ModUnique(end - start, 0, end - start);
    } else {
      ModUnique(end - start, -1, end - start + DAY);
    }
  }

  /** From the start time of day number `day`, on the local clock, to the next end time. */
  predicate OnDay(now: Time, config: Config, day: int)
    requires config.start.Some? && config.end.Some?
  {
    var midnight := day * 86_400_000_000 - config.utcOffset;
    var start := config.start.value.hour * 3_600_000_000 + config.start.value.minute * 60_000_000;
    var end := config.end.value.hour * 3_600_000_000 + config.end.value.minute * 60_000_000;
    midnight + start <= now < midnight + end + (if end < start then 86_400_000_000 else 0)
  }

  /** In hours and minutes: quiet are exactly the instants from the start time of some day to the next end time, and
      none is when one of the two times is missing. */
  lemma QuietFromStartToEnd(now: Time, config: Config)
    ensures IsInQuietHours(now, config)
            <==> config.start.Some? && config.end.Some? && exists day :: OnDay(now, config, day)
  {
    if config.start.Some? && config.end.Some? {
      var local := now + config.utcOffset;
      var day := local / DAY;
      ModUnique(local, day, local - day * DAY);
      assert OnDay(now, config, day) || OnDay(now, config, day - 1) <==> IsInQuietHours(now, config);
      forall d | OnDay(now, config, d) ensures d == day || d == day - 1 {
      }
    }
  }

  /** The deferral ends when the local clock shows the end time. */
  lemma DeferralEndsAtTheEndTime(now: Time, config: Config)
    requires IsInQuietHours(now, config)
    ensures (NextQuietHoursEnd(now, config).value + config.utcOffset) % 86_400_000_000
            == config.end.value.hour * 3_600_000_000 + config.end.value.minute * 60_000_000
  {
    var d := ExitIsCycleStart(now, config);
    ModUnique(NextQuietHoursEnd(now, config).value + config.utcOffset, d, OfDay(config.end.value));
  }

  lemma ModUnique(x: int, q: int, r: int)
    requires x == q * DAY + r && 0 <= r < DAY
    ensures x % DAY == r && x / DAY == q
  {
  }

  /** Deferral wakes up at the first instant outside quiet hours: strictly later, at most a day away, not
      quiet itself, and with nothing but quiet in between. It returns nothing exactly when now is not quiet. */
  lemma NextEndIsFirstExit(now: Time, config: Config)
    ensures NextQuietHoursEnd(now, config).Some? <==> IsInQuietHours(now, config)
    ensures IsInQuietHours(now, config) ==>
              var end := NextQuietHoursEnd(now, config).value;
              && now < end <= now + DAY
              && !IsInQuietHours(end, config)
              && forall t :: now <= t < end ==> IsInQuietHours(t, config)
  {
    if IsInQuietHours(now, config) {
      var end := NextQuietHoursEnd(now, config).value;
      var shift := config.utcOffset - OfDay(config.end.value);
      var d := ExitIsCycleStart(now, config);
      QuietIsTheTailOfTheCycle(now, config);
      QuietIsTheTailOfTheCycle(end, config);
      ModUnique(end + shift, d, 0);
      ModUnique(now + shift, d - 1, now + shift - (d - 1) * DAY);
      forall t | now <= t < end ensures IsInQuietHours(t, config) {
        QuietIsTheTailOfTheCycle(t, config);
        ModUnique(t + shift, d - 1, t + shift - (d - 1) * DAY);
      }
    }
  }

  lemma ExitIsCycleStart(now: Time, config: Config) returns (d: int)
    requires IsInQuietHours(now, config)
    ensures var shift := config.utcOffset - OfDay(config.end.value);
            var end := NextQuietHoursEnd(now, config).value;
            end + shift == d * DAY && now < end <= now + DAY
  {
    var localNow := now + config.utcOffset;
    var day := localNow / DAY;
    d := if day * DAY + OfDay(config.end.value) <= localNow then day + 1 else day;
  }

  /** Exactly which later instants fall back into quiet hours once a deferral has ended. */
  lemma AfterExitQuietIffLate(now: Time, config: Config, send: Time)
    requires IsInQuietHours(now, config)
    ensures var end := NextQuietHoursEnd(now, config).value;
            IsInQuietHours(send, config) <==> (send - end) % DAY >= DAY - QuietLength(config)
  {
    var end := NextQuietHoursEnd(now, config).value;
    var shift := config.utcOffset - OfDay(config.end.value);
    var d := ExitIsCycleStart(now, config);
    QuietIsTheTailOfTheCycle(send, config);
    var q, r := (send - end) / DAY, (send - end) % DAY;
    ModUnique(send + shift, q + d, r);
  }

  /** A sweep that is late by less than the rest of the day sends outside quiet hours. */
  lemma PromptSendIsNotQuiet(now: Time, config: Config, send: Time)
    requires IsInQuietHours(now, config)
    requires var end := NextQuietHoursEnd(now, config).value;
             end <= send < end + (DAY - QuietLength(config))
    ensures !IsInQuietHours(send, config)
  {
    AfterExitQuietIffLate(now, config, send);
    var end := NextQuietHoursEnd(now, config).value;
    ModUnique(send - end, 0, send - end);
  }
}
