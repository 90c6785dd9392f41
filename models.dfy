/**
 * The reminder record and its recurrence arithmetic (src/models.rs).
 *
 * Instants are integers counting nanoseconds since the Unix epoch, the
 * resolution of chrono's `DateTime<Utc>`; the clock reading `Utc::now()` is a
 * parameter.
 */
module Models {
  import opened Wrappers
  import opened Text

  type Timestamp = int

  const NanosPerMinute: int := 60_000_000_000
  const NanosPerDay: int := 24 * 60 * NanosPerMinute
  const NanosPerWeek: int := 7 * NanosPerDay

  const MinutesSuffix: string := "minutes"

  datatype Reminder = Reminder(
    id: string,
    message: string,
    dueTime: Timestamp,
    username: Option<string>,
    sent: bool,
    createdAt: Timestamp,
    recurrence: Option<string>)

  /** `Reminder::new`: a fresh, unsent reminder; the UUID and the creation clock reading are parameters. */
  function NewReminder(id: string, message: string, dueTime: Timestamp, username: Option<string>,
                       recurrence: Option<string>, now: Timestamp): (r: Reminder)
    ensures !r.sent
    ensures r.id == id && r.createdAt == now
    ensures r.message == message && r.dueTime == dueTime
    ensures r.username == username && r.recurrence == recurrence
  {
    Reminder(id, message, dueTime, username, false, now, recurrence)
  }

  /**
   * The `match` of `calculate_next_occurrence`: the interval a recurrence string
   * stands for, in nanoseconds. The string is lower-cased first; "daily" and
   * "weekly" are one day and seven days; a string that ends in "minutes" has
   * every trailing "minutes" stripped and the rest trimmed and parsed, and a
   * string that parses as an integer is taken as it is; either gives that many
   * minutes, and a count that is not positive, or does not parse, gives None.
   */
  function RecurrenceInterval(recurrence: string): (interval: Option<int>)
    ensures interval.Some? ==> interval.value > 0
  {
    var custom := Lower(recurrence);
    if custom == "daily" then Some(NanosPerDay)
    else if custom == "weekly" then Some(NanosPerWeek)
    else if EndsWith(custom, MinutesSuffix) || ParseI64(custom).Some? then
      var minutes :=
        if EndsWith(custom, MinutesSuffix) then ParseI64(Trim(TrimEndMatches(custom, MinutesSuffix)))
        else ParseI64(custom);
      match minutes
      case None => None
      case Some(m) => if m <= 0 then None else Some(m * NanosPerMinute)
    else None
  }

  /** The catch-up loop: keep adding the interval until the instant is strictly after `now`. */
  function CatchUp(next: Timestamp, interval: int, now: Timestamp): (t: Timestamp)
    requires interval > 0
    ensures t > now && t >= next
    decreases now - next
  {
    if next > now then next else CatchUp(next + interval, interval, now)
  }

  /** `calculate_next_occurrence` with the clock reading `now` as a parameter. */
  function NextOccurrence(r: Reminder, now: Timestamp): (next: Option<Timestamp>)
    ensures r.recurrence.None? ==> next.None?
    ensures next.Some? ==> next.value > now && next.value > r.dueTime
    ensures next.Some? ==> r.recurrence.Some? && RecurrenceInterval(r.recurrence.value).Some?
    ensures next.Some? && r.dueTime >= now ==>
              next.value == r.dueTime + RecurrenceInterval(r.recurrence.value).value
  {
    match r.recurrence
    case None => None
    case Some(s) =>
      match RecurrenceInterval(s)
      case None => None
      case Some(interval) => Some(CatchUp(r.dueTime + interval, interval, now))
  }

  /** The catch-up loop ends after the fewest steps that reach past `now`. */
  lemma {:induction false} CatchUpSteps(next: Timestamp, interval: int, now: Timestamp) returns (k: nat)
    requires interval > 0
    ensures CatchUp(next, interval, now) == next + k * interval
    ensures k == 0 || next + (k - 1) * interval <= now
    decreases now - next
  {
    if next > now {
      k := 0;
    } else {
      var j := CatchUpSteps(next + interval, interval, now);
      k := j + 1;
      assert next + k * interval == next + interval + j * interval;
    }
  }

  /**
   * The next occurrence is the due time plus k intervals, for the smallest
   * k >= 1 that lands strictly after `now`: missed occurrences are skipped.
   */
  lemma NextOccurrenceIsFirstFutureStep(r: Reminder, now: Timestamp, interval: int) returns (k: nat)
    requires r.recurrence.Some? && RecurrenceInterval(r.recurrence.value) == Some(interval)
    ensures NextOccurrence(r, now).Some?
    ensures var t := NextOccurrence(r, now).value;
            && k >= 1
            && t == r.dueTime + k * interval
            && t > now
            && (k == 1 || r.dueTime + (k - 1) * interval <= now)
  {
    var start := r.dueTime + interval;
    assert NextOccurrence(r, now) == Some(CatchUp(start, interval, now));
    var j := CatchUpSteps(start, interval, now);
    k := j + 1;
    assert k * interval == j * interval + interval;
    assert (k - 1) * interval == j * interval;
  }

  /** The catch-up loop of `calculate_next_occurrence`: step forward from `start` until past `now`. */
  method StepPast(start: Timestamp, step: int, now: Timestamp) returns (t: Timestamp)
    requires step > 0
    ensures t == CatchUp(start, step, now)
  {
    t := start;
    while t <= now
      invariant CatchUp(t, step, now) == CatchUp(start, step, now)
      decreases now - t
    {
      t := t + step;
    }
  }

  /**
   * `calculate_next_occurrence` as the source runs it: classify the interval,
   * then step forward from the due time in a loop until past `now`.
   */
  method CalculateNextOccurrence(r: Reminder, now: Timestamp) returns (next: Option<Timestamp>)
    ensures next == NextOccurrence(r, now)
    ensures next.Some? ==> next.value > now
  {
    if r.recurrence.None? {
      return None;
    }
    var interval := RecurrenceInterval(r.recurrence.value);
    if interval.None? {
      return None;
    }
    var t := StepPast(r.dueTime + interval.value, interval.value, now);
    next := Some(t);
  }

  /** A lower-cased "minutes" form whose stripped, trimmed rest is a positive count is that many minutes. */
  lemma MinutesFormInterval(recurrence: string, m: int)
    requires EndsWith(Lower(recurrence), MinutesSuffix)
    requires ParseI64(Trim(TrimEndMatches(Lower(recurrence), MinutesSuffix))) == Some(m) && m > 0
    ensures RecurrenceInterval(recurrence) == Some(m * NanosPerMinute)
  {
    var custom := Lower(recurrence);
    assert custom != "daily" && custom != "weekly" by {
      assert |custom| >= |MinutesSuffix|;
    }
  }

  // ---------------------------------------------------------------------------
  // The recurrence strings the source's comments and callers name

  /** "daily" and "weekly" are recognised in any letter case. */
  lemma DailyAndWeeklyIgnoreCase()
    ensures forall s :: Lower(s) == "daily" ==> RecurrenceInterval(s) == Some(NanosPerDay)
    ensures forall s :: Lower(s) == "weekly" ==> RecurrenceInterval(s) == Some(NanosPerWeek)
    ensures RecurrenceInterval("daily") == Some(NanosPerDay)
    ensures RecurrenceInterval("Daily") == Some(NanosPerDay)
    ensures RecurrenceInterval("WEEKLY") == Some(NanosPerWeek)
  {
    assert Lower("daily") == "daily";
    assert Lower("Daily") == "daily";
    assert Lower("WEEKLY") == "weekly";
  }

  lemma StripDoubledSuffix()
    ensures TrimEndMatches("5minutesminutes", MinutesSuffix) == "5"
  {
    var s := "5minutesminutes";
    assert EndsWith(s, MinutesSuffix);
    assert s[..|s| - 7] == "5minutes";
    assert EndsWith("5minutes", MinutesSuffix);
    assert "5minutes"[..1] == "5";
    assert !EndsWith("5", MinutesSuffix);
  }

  lemma ParseFive()
    ensures ParseI64("5") == Some(5)
  {
    assert AllDigits("5");
    assert DigitsValue("5") == DigitsValue([]) * 10 + 5;
  }

  /** Every trailing "minutes" is stripped, so a doubled suffix still means five minutes. */
  lemma RepeatedSuffixStripped()
    ensures RecurrenceInterval("5minutesminutes") == Some(5 * NanosPerMinute)
  {
    var s := "5minutesminutes";
    assert Lower(s) == s;
    assert EndsWith(s, MinutesSuffix);
    StripDoubledSuffix();
    assert Trim("5") == "5";
    ParseFive();
  }

  /**
   * "minutes" alone leaves nothing to parse, "0" is not a positive count, and
   * a string that is neither a preset, nor an integer, nor ends in "minutes"
   * once lower-cased, such as "hourly", stands for no interval.
   */
  lemma UnusableIntervals()
    ensures forall s ::
              Lower(s) != "daily" && Lower(s) != "weekly" && ParseI64(Lower(s)).None? && !EndsWith(Lower(s), MinutesSuffix)
              ==> RecurrenceInterval(s) == None
    ensures RecurrenceInterval("minutes") == None
    ensures RecurrenceInterval("0") == None
    ensures RecurrenceInterval("hourly") == None
  {
    assert Lower("minutes") == "minutes";
    assert EndsWith("minutes", MinutesSuffix);
    assert TrimEndMatches("minutes", MinutesSuffix) == [];
    assert Lower("0") == "0";
    assert ParseI64("0") == Some(0) by {
      assert AllDigits("0");
      assert DigitsValue("0") == DigitsValue([]) * 10 + 0;
    }
    assert Lower("hourly") == "hourly";
    assert !EndsWith("hourly", MinutesSuffix);
    assert !IsDigit("hourly"[0]);
  }

  /** A daily reminder 36 hours overdue moves to its due time plus two days (one occurrence skipped). */
  lemma OverdueDailySkipsMissedOccurrence(r: Reminder, now: Timestamp)
    requires r.recurrence == Some("daily")
    requires r.dueTime == now - 36 * 60 * NanosPerMinute
    ensures NextOccurrence(r, now) == Some(r.dueTime + 2 * NanosPerDay)
  {
    assert Lower("daily") == "daily";
    assert RecurrenceInterval("daily") == Some(NanosPerDay);
    var first := r.dueTime + NanosPerDay;
    assert first <= now;
    assert CatchUp(first, NanosPerDay, now) == CatchUp(first + NanosPerDay, NanosPerDay, now);
    assert first + NanosPerDay > now;
  }
}
