/**
 * The reminder service's own logic (src/main.rs): the request validation in
 * `create_reminder` and one pass of the `notification_service` loop.
 *
 * The HTTP layer is not modelled; a request arrives as its fields, with the
 * ISO 8601 due time already parsed by chrono into `Some(instant)` or `None`.
 */
module Service {
  import opened Wrappers
  import opened Text
  import opened Models
  import opened Storage

  /** The four reasons `create_reminder` answers 400 Bad Request. */
  datatype ValidationError =
    | InvalidDateFormat
    | EmptyMessage
    | NonPositiveInterval
    | InvalidRecurrenceFormat

  /** The answers other than 201 Created. */
  datatype ApiError =
    | BadRequest(reason: ValidationError)
    | InternalServerError(cause: StorageError)

  /** `CreateReminderResponse`. */
  datatype CreateReminderResponse = CreateReminderResponse(id: string, message: string, dueTime: Timestamp)

  // ---------------------------------------------------------------------------
  // Validation

  /**
   * The recurrence check of `create_reminder`. Presets are recognised in any
   * letter case; a whole-string integer must be positive; otherwise a string
   * whose lower-cased form ends in "minutes" has "minutes" stripped from the
   * ORIGINAL string (so only the lower-case spelling is stripped), and the
   * trimmed rest must be a positive integer.
   */
  function ValidateRecurrence(recurrence: string): (res: Outcome<ValidationError>)
    ensures res.Fail? ==> res.error in {NonPositiveInterval, InvalidRecurrenceFormat}
    ensures Lower(recurrence) in {"daily", "weekly"} ==> res.Pass?
    ensures ParseI64(recurrence).Some? ==> (res.Pass? <==> ParseI64(recurrence).value > 0)
  {
    var lower := Lower(recurrence);
    if lower == "daily" || lower == "weekly" then Pass
    else
      match ParseI64(recurrence)
      case Some(minutes) => if minutes <= 0 then Fail(NonPositiveInterval) else Pass
      case None =>
        if EndsWith(lower, MinutesSuffix) then
          match ParseI64(Trim(TrimEndMatches(recurrence, MinutesSuffix)))
          case Some(minutes) => if minutes > 0 then Pass else Fail(NonPositiveInterval)
          case None => Fail(InvalidRecurrenceFormat)
        else Fail(InvalidRecurrenceFormat)
  }

  /**
   * The checks of `create_reminder` in their order: the due time must parse,
   * the message must not be blank, and a given recurrence must be accepted.
   * On success the parsed due time is returned.
   */
  function ValidateRequest(message: string, dueTime: Option<Timestamp>, recurrence: Option<string>)
    : (res: Result<Timestamp, ValidationError>)
    ensures res.Ok? <==>
              && dueTime.Some?
              && !IsBlank(message)
              && (recurrence.Some? ==> ValidateRecurrence(recurrence.value).Pass?)
    ensures res.Ok? ==> res.value == dueTime.value
    ensures dueTime.None? ==> res == Err(InvalidDateFormat)
    ensures dueTime.Some? && IsBlank(message) ==> res == Err(EmptyMessage)
    ensures res.Err? && res.error in {NonPositiveInterval, InvalidRecurrenceFormat} ==>
              recurrence.Some? && ValidateRecurrence(recurrence.value) == Fail(res.error)
  {
    if dueTime.None? then Err(InvalidDateFormat)
    else if Trim(message) == [] then Err(EmptyMessage)
    else if recurrence.Some? && ValidateRecurrence(recurrence.value).Fail? then
      Err(ValidateRecurrence(recurrence.value).error)
    else Ok(dueTime.value)
  }

  lemma MinutesSuffixIsLower()
    ensures Lower(MinutesSuffix) == MinutesSuffix
  {
    assert Lower(MinutesSuffix)[6] == MinutesSuffix[6];
  }

  /** A numeric string ends in a digit, so it never ends in "minutes". */
  lemma ParsedHasNoMinutesSuffix(s: string)
    requires ParseI64(s).Some?
    ensures !EndsWith(Lower(s), MinutesSuffix)
  {
    ParsedIsLowerFixed(s);
  }

  /**
   * When the rest of a string, trimmed, parses as a count, the rest ends in a
   * digit or in whitespace, so lower-casing cannot make it end in "minutes".
   */
  lemma CountRestHasNoMinutesSuffix(rest: string)
    requires ParseI64(Trim(rest)).Some?
    ensures !EndsWith(Lower(rest), MinutesSuffix)
  {
    CountRestEnd(rest);
    NotEndingInS(rest);
  }

  /** A string whose trimmed form parses ends in a digit or in whitespace. */
  lemma CountRestEnd(rest: string)
    requires ParseI64(Trim(rest)).Some?
    ensures rest != [] && (IsDigit(rest[|rest| - 1]) || IsWhitespace(rest[|rest| - 1]))
  {
    assert !IsBlank(rest);
    if !IsWhitespace(rest[|rest| - 1]) {
      TrimKeepsLast(rest);
    }
  }

  /** Lower-casing a string that does not end in 's' or 'S' cannot make it end in "minutes". */
  lemma NotEndingInS(s: string)
    requires s != [] && s[|s| - 1] != 's' && s[|s| - 1] != 'S'
    ensures !EndsWith(Lower(s), MinutesSuffix)
  {
    var lowered := Lower(s);
    assert lowered[|lowered| - 1] == LowerChar(s[|s| - 1]);
    assert MinutesSuffix[6] == 's';
  }

  /**
   * In the "minutes" branch the validator strips the original string and the
   * scheduler strips the lower-cased one; once the rest parses, both read the
   * same count.
   */
  lemma MinutesBranchAgrees(recurrence: string)
    requires ParseI64(Trim(TrimEndMatches(recurrence, MinutesSuffix))).Some?
    ensures ParseI64(Trim(TrimEndMatches(Lower(recurrence), MinutesSuffix)))
         == ParseI64(Trim(TrimEndMatches(recurrence, MinutesSuffix)))
  {
    var rest := TrimEndMatches(recurrence, MinutesSuffix);
    CountRestHasNoMinutesSuffix(rest);
    MinutesSuffixIsLower();
    LowerTrimEndMatches(recurrence, MinutesSuffix);
    TrimLower(rest);
    ParsedIsLowerFixed(Trim(rest));
    calc {
      Trim(TrimEndMatches(Lower(recurrence), MinutesSuffix));
      Trim(Lower(rest));
      Lower(Trim(rest));
      Trim(rest);
    }
  }

  /**
   * Every recurrence the validator accepts has a schedulable interval, so a
   * stored reminder with it always has a next occurrence.
   */
  lemma AcceptedRecurrenceIsSchedulable(recurrence: string)
    requires ValidateRecurrence(recurrence).Pass?
    ensures RecurrenceInterval(recurrence).Some?
  {
    var lower := Lower(recurrence);
    if lower == "daily" || lower == "weekly" {
    } else if ParseI64(recurrence).Some? {
      IntegerSchedulable(recurrence);
    } else {
      assert EndsWith(lower, MinutesSuffix);
      MinutesSchedulable(recurrence);
    }
  }

  /** A positive whole-string count is read by the scheduler as that many minutes. */
  lemma IntegerSchedulable(recurrence: string)
    requires ParseI64(recurrence).Some? && ParseI64(recurrence).value > 0
    ensures RecurrenceInterval(recurrence).Some?
  {
    ParsedIsLowerFixed(recurrence);
    ParsedHasNoMinutesSuffix(recurrence);
  }

  /** A "minutes" form whose stripped rest is a positive count is read by the scheduler too. */
  lemma MinutesSchedulable(recurrence: string)
    requires EndsWith(Lower(recurrence), MinutesSuffix)
    requires ParseI64(Trim(TrimEndMatches(recurrence, MinutesSuffix))).Some?
    requires ParseI64(Trim(TrimEndMatches(recurrence, MinutesSuffix))).value > 0
    ensures RecurrenceInterval(recurrence).Some?
  {
    MinutesBranchAgrees(recurrence);
    MinutesFormInterval(recurrence, ParseI64(Trim(TrimEndMatches(recurrence, MinutesSuffix))).value);
  }

  /** The cross-file promise: an accepted recurring reminder is always rescheduled, never left sent. */
  lemma AcceptedReminderRecurs(r: Reminder, now: Timestamp)
    requires r.recurrence.Some? && ValidateRecurrence(r.recurrence.value).Pass?
    ensures NextOccurrence(r, now).Some?
  {
    AcceptedRecurrenceIsSchedulable(r.recurrence.value);
  }

  // ---------------------------------------------------------------------------
  // Concrete strings the validator is documented to accept or refuse

  /** The "minutes" branch: the verdict follows the count read from the stripped, trimmed rest. */
  lemma MinutesFormVerdict(recurrence: string, count: string, m: int)
    requires ParseI64(recurrence).None?
    requires EndsWith(Lower(recurrence), MinutesSuffix)
    requires Trim(TrimEndMatches(recurrence, MinutesSuffix)) == count && ParseI64(count) == Some(m)
    ensures ValidateRecurrence(recurrence) == if m > 0 then Pass else Fail(NonPositiveInterval)
  {
    assert |Lower(recurrence)| >= |MinutesSuffix|;
  }

  lemma ParseSixty()
    ensures ParseI64("60") == Some(60)
  {
    assert AllDigits("60");
    assert "60"[..1] == "6";
    assert DigitsValue("60") == DigitsValue("6") * 10 + 0;
    assert DigitsValue("6") == DigitsValue([]) * 10 + 6;
  }

  lemma ParseMinusFive()
    ensures ParseI64("-5") == Some(-5)
  {
    assert "-5"[1..] == "5";
    ParseFive();
  }

  /** Trimming a string already free of whitespace at both ends changes nothing. */
  lemma TrimUnpadded(s: string)
    requires s != [] && !IsWhitespace(s[0]) && !IsWhitespace(s[|s| - 1])
    ensures Trim(s) == s
  {
    assert TrimEnd(s) == s;
    assert TrimStart(s) == s;
  }

  lemma PresetsAnyCase()
    ensures ValidateRecurrence("Daily") == Pass
    ensures ValidateRecurrence("WEEKLY") == Pass
  {
    assert Lower("Daily") == "daily";
    assert Lower("WEEKLY") == "weekly";
  }

  lemma NonPositiveCountsRejected()
    ensures ValidateRecurrence("0") == Fail(NonPositiveInterval)
    ensures ValidateRecurrence("-5") == Fail(NonPositiveInterval)
  {
    assert Lower("0") == "0";
    assert ParseI64("0") == Some(0) by {
      assert AllDigits("0");
      assert DigitsValue("0") == DigitsValue([]) * 10 + 0;
    }
    assert Lower("-5") == "-5";
    ParseMinusFive();
  }

  lemma SixtyMinutesAccepted()
    ensures ValidateRecurrence("60minutes") == Pass
  {
    SixtyMinutesShape();
    TrimUnpadded("60");
    ParseSixty();
    MinutesFormVerdict("60minutes", "60", 60);
  }

  lemma SixtyMinutesShape()
    ensures Lower("60minutes") == "60minutes"
    ensures ParseI64("60minutes").None?
    ensures TrimEndMatches("60minutes", MinutesSuffix) == "60"
  {
    var s := "60minutes";
    assert !IsDigit(s[2]);
    assert s[..2] == "60";
    assert !EndsWith("60", MinutesSuffix);
  }

  lemma PaddedSixtyMinutesShape()
    ensures Lower(" 60 minutes") == " 60 minutes"
    ensures ParseI64(" 60 minutes").None?
    ensures TrimEndMatches(" 60 minutes", MinutesSuffix) == " 60 "
  {
    var s := " 60 minutes";
    assert !IsDigit(s[0]) && s[0] != '+' && s[0] != '-';
    assert s[..4] == " 60 ";
    assert !EndsWith(" 60 ", MinutesSuffix);
  }

  lemma TrimPaddedSixty()
    ensures Trim(" 60 ") == "60"
  {
    TrimEndPaddedSixty();
    TrimStartPaddedSixty();
  }

  lemma TrimEndPaddedSixty()
    ensures TrimEnd(" 60 ") == " 60"
  {
    assert " 60 "[..3] == " 60";
  }

  lemma TrimStartPaddedSixty()
    ensures TrimStart(" 60") == "60"
  {
    var inner := " 60";
    assert inner[0] == ' ' && inner[1..] == "60";
    assert TrimStart("60") == "60" by { assert !IsWhitespace("60"[0]); }
  }

  lemma PaddedSixtyMinutesAccepted()
    ensures ValidateRecurrence(" 60 minutes") == Pass
  {
    PaddedSixtyMinutesShape();
    TrimPaddedSixty();
    ParseSixty();
    MinutesFormVerdict(" 60 minutes", "60", 60);
  }

  lemma NegativeMinutesShape()
    ensures Lower("-5 minutes") == "-5 minutes"
    ensures ParseI64("-5 minutes").None?
    ensures TrimEndMatches("-5 minutes", MinutesSuffix) == "-5 "
  {
    var s := "-5 minutes";
    assert !IsDigit(s[2]);
    assert s[..3] == "-5 ";
    assert !EndsWith("-5 ", MinutesSuffix);
  }

  lemma TrimMinusFive()
    ensures Trim("-5 ") == "-5"
  {
    TrimOneSpace("-5");
    assert "-5" + " " == "-5 ";
  }

  lemma NegativeMinutesRejected()
    ensures ValidateRecurrence("-5 minutes") == Fail(NonPositiveInterval)
  {
    NegativeMinutesShape();
    TrimMinusFive();
    ParseMinusFive();
    MinutesFormVerdict("-5 minutes", "-5", -5);
  }

  lemma UpperCaseMinutesShape()
    ensures Lower("60 MINUTES") == "60 minutes"
    ensures ParseI64("60 MINUTES").None?
    ensures TrimEndMatches("60 MINUTES", MinutesSuffix) == "60 MINUTES"
    ensures ParseI64(Trim("60 MINUTES")).None?
  {
    var s := "60 MINUTES";
    assert !IsDigit(s[2]);
    assert s[|s| - 1] != MinutesSuffix[6];
    TrimUnpadded(s);
  }

  lemma LowerMinutesShape()
    ensures ParseI64("60 minutes").None?
    ensures TrimEndMatches("60 minutes", MinutesSuffix) == "60 "
  {
    var s := "60 minutes";
    assert !IsDigit(s[2]);
    assert s[..3] == "60 ";
    assert !EndsWith("60 ", MinutesSuffix);
  }

  lemma TrimSixty()
    ensures Trim("60 ") == "60"
  {
    TrimOneSpace("60");
    assert "60" + " " == "60 ";
  }

  /**
   * The suffix is found case-insensitively but stripped case-sensitively, so
   * "60 MINUTES" is refused although the scheduler would accept it.
   */
  lemma UpperCaseMinutesRejected()
    ensures ValidateRecurrence("60 MINUTES") == Fail(InvalidRecurrenceFormat)
    ensures RecurrenceInterval("60 MINUTES") == Some(60 * NanosPerMinute)
  {
    UpperCaseMinutesValidated();
    UpperCaseMinutesScheduled();
  }

  lemma UpperCaseMinutesValidated()
    ensures ValidateRecurrence("60 MINUTES") == Fail(InvalidRecurrenceFormat)
  {
    UpperCaseMinutesShape();
    LowerSixtyMinutesEnds();
  }

  lemma UpperCaseMinutesScheduled()
    ensures RecurrenceInterval("60 MINUTES") == Some(60 * NanosPerMinute)
  {
    UpperCaseMinutesShape();
    LowerMinutesShape();
    TrimSixty();
    ParseSixty();
    LowerSixtyMinutesEnds();
  }

  lemma LowerSixtyMinutesEnds()
    ensures EndsWith("60 minutes", MinutesSuffix)
    ensures "60 minutes" != "daily" && "60 minutes" != "weekly"
  {
    var lower := "60 minutes";
    assert lower[3..] == MinutesSuffix;
    assert |lower| != |"daily"| && |lower| != |"weekly"|;
  }

  /**
   * A recurrence that is neither a preset nor an integer, and whose
   * lower-cased form does not end in "minutes", is an invalid format.
   */
  lemma OtherWordsRejected()
    ensures forall s ::
              Lower(s) != "daily" && Lower(s) != "weekly" && ParseI64(s).None? && !EndsWith(Lower(s), MinutesSuffix)
              ==> ValidateRecurrence(s) == Fail(InvalidRecurrenceFormat)
    ensures ValidateRecurrence("hourly") == Fail(InvalidRecurrenceFormat)
  {
    assert Lower("hourly") == "hourly";
    assert !IsDigit("hourly"[0]);
    assert !EndsWith("hourly", MinutesSuffix);
  }

  /**
   * `create_reminder` after JSON decoding: validate, build the reminder with
   * the given UUID and clock reading, and append it to the store. A request
   * that fails validation leaves the store untouched.
   */
  method CreateReminder(store: ReminderStorage, message: string, dueTime: Option<Timestamp>,
                        username: Option<string>, recurrence: Option<string>, id: string, now: Timestamp)
    returns (res: Result<CreateReminderResponse, ApiError>)
    modifies store`reminders, store`snapshot
    ensures ValidateRequest(message, dueTime, recurrence).Err? ==>
              && res == Err(BadRequest(ValidateRequest(message, dueTime, recurrence).error))
              && store.reminders == old(store.reminders) && store.snapshot == old(store.snapshot)
    ensures ValidateRequest(message, dueTime, recurrence).Ok? ==>
              && store.reminders == old(store.reminders) + [NewReminder(id, message, dueTime.value, username, recurrence, now)]
              && res == (if store.diskWritable then Ok(CreateReminderResponse(id, message, dueTime.value))
                         else Err(InternalServerError(PersistenceFailed)))
              && store.snapshot == (if store.diskWritable then store.reminders else old(store.snapshot))
  {
    var checked := ValidateRequest(message, dueTime, recurrence);
    if checked.Err? {
      return Err(BadRequest(checked.error));
    }
    var reminder := NewReminder(id, message, checked.value, username, recurrence, now);
    var saved := store.AddReminder(reminder);
    match saved
    case Ok(r) =>
      res := Ok(CreateReminderResponse(r.id, r.message, r.dueTime));
    case Err(e) =>
      res := Err(InternalServerError(e));
  }

  // ---------------------------------------------------------------------------
  // One tick of the notification service

  /** The store update a delivered reminder causes: reschedule it, or mark it sent. */
  function Deliver(rs: seq<Reminder>, r: Reminder, now: Timestamp): seq<Reminder> {
    match NextOccurrence(r, now)
    case Some(next) => Rescheduled(rs, r.id, next)
    case None => MarkedSent(rs, r.id)
  }

  /** The store after delivering `ds` in order. */
  function DeliverAll(rs: seq<Reminder>, ds: seq<Reminder>, now: Timestamp): (r: seq<Reminder>)
    ensures SameIds(rs, r)
    decreases |ds|
  {
    if ds == [] then rs
    else Deliver(DeliverAll(rs, ds[..|ds| - 1], now), ds[|ds| - 1], now)
  }

  /** The store after one tick at the clock reading `now`. */
  function TickResult(rs: seq<Reminder>, now: Timestamp): seq<Reminder> {
    DeliverAll(rs, Due(rs, now), now)
  }

  /** The ids of the reminders, in order. */
  function Ids(rs: seq<Reminder>): (ids: seq<string>)
    ensures |ids| == |rs|
    decreases |rs|
  {
    if rs == [] then [] else Ids(rs[..|rs| - 1]) + [rs[|rs| - 1].id]
  }

  /** Delivering one more reminder extends the fold by one step. */
  lemma DeliverAllStep(rs: seq<Reminder>, ds: seq<Reminder>, i: nat, now: Timestamp)
    requires i < |ds|
    ensures DeliverAll(rs, ds[..i + 1], now) == Deliver(DeliverAll(rs, ds[..i], now), ds[i], now)
  {
    assert ds[..i + 1][..i] == ds[..i];
  }

  /** A reminder of the original list is still found by id after updates that keep the ids. */
  lemma StillFound(before: seq<Reminder>, current: seq<Reminder>, r: Reminder)
    requires SameIds(before, current) && r in before
    ensures FirstWithId(current, r.id).Some?
  {
    FirstWithIdSameIds(before, current, r.id);
  }

  /**
   * The body of the notification loop for one due reminder: compute its next
   * occurrence, then reschedule it to that instant or mark it sent.
   */
  method DeliverOne(store: ReminderStorage, reminder: Reminder, now: Timestamp)
    returns (outcome: Outcome<StorageError>)
    requires FirstWithId(store.reminders, reminder.id).Some?
    modifies store`reminders, store`snapshot
    ensures store.reminders == Deliver(old(store.reminders), reminder, now)
    ensures outcome == if store.diskWritable then Pass else Fail(PersistenceFailed)
    ensures store.snapshot == if store.diskWritable then store.reminders else old(store.snapshot)
  {
    var next := CalculateNextOccurrence(reminder, now);
    if next.Some? {
      outcome := store.RescheduleReminder(reminder.id, next.value);
    } else {
      outcome := store.MarkAsSent(reminder.id);
    }
  }

  /** What the notification loop has done after delivering the first `i` due reminders. */
  predicate TickSoFar(before: seq<Reminder>, delivered: seq<Reminder>, i: nat, now: Timestamp,
                      current: seq<Reminder>, failures: seq<string>, writable: bool)
  {
    && i <= |delivered|
    && delivered == Due(before, now)
    && current == DeliverAll(before, delivered[..i], now)
    && failures == if writable then [] else Ids(delivered[..i])
  }

  /** After the last due reminder the loop has performed the whole tick. */
  lemma TickFinished(before: seq<Reminder>, delivered: seq<Reminder>, now: Timestamp,
                     current: seq<Reminder>, failures: seq<string>, writable: bool)
    requires TickSoFar(before, delivered, |delivered|, now, current, failures, writable)
    ensures delivered == Due(before, now)
    ensures current == TickResult(before, now)
    ensures failures == if writable then [] else Ids(delivered)
  {
    assert delivered[..|delivered|] == delivered;
  }

  /** One turn of the notification loop: the `i`th due reminder is delivered and a failed write recorded. */
  method DeliverNext(store: ReminderStorage, ghost before: seq<Reminder>, delivered: seq<Reminder>, i: nat,
                     now: Timestamp, failures: seq<string>)
    returns (next: seq<string>)
    requires i < |delivered|
    requires TickSoFar(before, delivered, i, now, store.reminders, failures, store.diskWritable)
    modifies store`reminders, store`snapshot
    ensures TickSoFar(before, delivered, i + 1, now, store.reminders, next, store.diskWritable)
    ensures store.snapshot == if store.diskWritable then store.reminders else old(store.snapshot)
  {
    var reminder := delivered[i];
    StillFound(before, store.reminders, reminder);
    DeliverAllStep(before, delivered, i, now);
    var outcome := DeliverOne(store, reminder, now);
    next := if outcome.Fail? then failures + [reminder.id] else failures;
    assert delivered[..i + 1][..i] == delivered[..i];
  }

  /**
   * One pass of `notification_service` at the clock reading `now`: every due
   * reminder is delivered, then rescheduled when it has a next occurrence and
   * marked sent otherwise. A failed write is reported in `failures` and the
   * pass goes on with the next reminder.
   */
  method NotificationTick(store: ReminderStorage, now: Timestamp)
    returns (delivered: seq<Reminder>, failures: seq<string>)
    modifies store`reminders, store`snapshot
    ensures delivered == Due(old(store.reminders), now)
    ensures store.reminders == TickResult(old(store.reminders), now)
    ensures failures == if store.diskWritable then [] else Ids(delivered)
    ensures store.snapshot == if store.diskWritable && delivered != [] then store.reminders else old(store.snapshot)
  {
    ghost var before := store.reminders;
    delivered := store.GetDueReminders(now);
    failures := [];
    var i: nat := 0;
    while i < |delivered|
      invariant TickSoFar(before, delivered, i, now, store.reminders, failures, store.diskWritable)
      invariant store.snapshot == if store.diskWritable && i > 0 then store.reminders else old(store.snapshot)
    {
      failures := DeliverNext(store, before, delivered, i, now, failures);
      i := i + 1;
    }
    TickFinished(before, delivered, now, store.reminders, failures, store.diskWritable);
  }

  // ---------------------------------------------------------------------------
  // What one tick does to each reminder

  predicate UniqueIds(rs: seq<Reminder>) {
    forall i, j :: 0 <= i < j < |rs| ==> rs[i].id != rs[j].id
  }

  /** A delivered reminder: moved to its next occurrence, or sent when it has none. */
  function Fire(r: Reminder, now: Timestamp): (f: Reminder)
    ensures f.id == r.id && f.message == r.message && f.recurrence == r.recurrence
    ensures !IsDue(f, now)
    ensures NextOccurrence(r, now).None? <==> f.sent
  {
    match NextOccurrence(r, now)
    case Some(next) => r.(dueTime := next, sent := false)
    case None => r.(sent := true)
  }

  /** Each due reminder fired where it stands; every other reminder as it was. */
  function TickUpdate(rs: seq<Reminder>, now: Timestamp): (r: seq<Reminder>)
    ensures |r| == |rs|
  {
    seq(|rs|, k requires 0 <= k < |rs| => if IsDue(rs[k], now) then Fire(rs[k], now) else rs[k])
  }

  /** An update found at an index of `xs` leaves an element appended after `xs` alone. */
  lemma DeliverFrame(xs: seq<Reminder>, y: Reminder, r: Reminder, now: Timestamp)
    requires FirstWithId(xs, r.id).Some?
    ensures Deliver(xs + [y], r, now) == Deliver(xs, r, now) + [y]
  {
    FirstWithIdAppend(xs, y, r.id);
    var k := FirstWithId(xs, r.id).value;
    assert (xs + [y])[k] == xs[k];
  }

  /** An id that first appears at the end: the update applies to that last element. */
  lemma DeliverLast(xs: seq<Reminder>, r: Reminder, now: Timestamp)
    requires forall j :: 0 <= j < |xs| ==> xs[j].id != r.id
    ensures Deliver(xs + [r], r, now) == xs + [Fire(r, now)]
  {
    FirstWithIdAppend(xs, r, r.id);
    assert (xs + [r])[|xs|] == r;
  }

  lemma {:induction false} DeliverAllFrame(xs: seq<Reminder>, y: Reminder, ds: seq<Reminder>, now: Timestamp)
    requires forall d :: d in ds ==> FirstWithId(xs, d.id).Some?
    ensures DeliverAll(xs + [y], ds, now) == DeliverAll(xs, ds, now) + [y]
    decreases |ds|
  {
    if ds != [] {
      var init, d := ds[..|ds| - 1], ds[|ds| - 1];
      assert forall e :: e in init ==> e in ds;
      DeliverAllFrame(xs, y, init, now);
      var mid := DeliverAll(xs, init, now);
      FirstWithIdSameIds(xs, mid, d.id);
      DeliverFrame(mid, y, d, now);
    }
  }

  /** The due query on a list with one more reminder at the end. */
  lemma DueSnoc(init: seq<Reminder>, last: Reminder, now: Timestamp)
    ensures Due(init + [last], now) == Due(init, now) + (if IsDue(last, now) then [last] else [])
  {
    var rs := init + [last];
    assert rs[..|rs| - 1] == init;
  }

  /** The pointwise update on a list with one more reminder at the end. */
  lemma TickUpdateSnoc(init: seq<Reminder>, last: Reminder, now: Timestamp)
    ensures TickUpdate(init + [last], now)
         == TickUpdate(init, now) + [if IsDue(last, now) then Fire(last, now) else last]
  {
  }

  /** Every reminder the due query returns is found by its id. */
  lemma DueFound(rs: seq<Reminder>, now: Timestamp)
    ensures forall d :: d in Due(rs, now) ==> FirstWithId(rs, d.id).Some?
  {
    forall d | d in Due(rs, now) ensures FirstWithId(rs, d.id).Some? {
      assert d in rs;
    }
  }

  /** The last reminder of a list with unique ids shares its id with nothing before it. */
  lemma LastIdFresh(init: seq<Reminder>, last: Reminder, mid: seq<Reminder>)
    requires UniqueIds(init + [last]) && SameIds(init, mid)
    ensures forall j :: 0 <= j < |mid| ==> mid[j].id != last.id
  {
    var rs := init + [last];
    forall j | 0 <= j < |mid| ensures mid[j].id != last.id {
      assert rs[j] == init[j] && rs[|init|] == last;
    }
  }

  /** With unique ids, the tick's fold of store updates fires each due reminder in place. */
  lemma {:induction false} TickResultPointwise(rs: seq<Reminder>, now: Timestamp)
    requires UniqueIds(rs)
    ensures TickResult(rs, now) == TickUpdate(rs, now)
    decreases |rs|
  {
    if rs != [] {
      var init, last := rs[..|rs| - 1], rs[|rs| - 1];
      assert rs == init + [last];
      assert UniqueIds(init);
      TickResultPointwise(init, now);
      var due := Due(init, now);
      DueSnoc(init, last, now);
      DueFound(init, now);
      DeliverAllFrame(init, last, due, now);
      TickUpdateSnoc(init, last, now);
      var mid := DeliverAll(init, due, now);
      if IsDue(last, now) {
        assert (due + [last])[..|due|] == due;
        LastIdFresh(init, last, mid);
        DeliverLast(mid, last, now);
      } else {
        assert due + [] == due;
      }
    }
  }

  /** With unique ids, nothing is due at the same clock reading after a tick with no failed write. */
  lemma TickClearsDue(rs: seq<Reminder>, now: Timestamp)
    requires UniqueIds(rs)
    ensures Due(TickResult(rs, now), now) == []
  {
    TickResultPointwise(rs, now);
    var after := TickUpdate(rs, now);
    assert forall k :: 0 <= k < |after| ==> !IsDue(after[k], now);
    NothingDue(after, now);
  }

  /** A reminder that was not due comes out of the tick unchanged. */
  lemma TickLeavesOthers(rs: seq<Reminder>, now: Timestamp, k: nat)
    requires UniqueIds(rs) && k < |rs|
    requires !IsDue(rs[k], now)
    ensures TickResult(rs, now)[k] == rs[k]
  {
    TickResultPointwise(rs, now);
  }

  /** A due one-shot reminder ends up sent, with nothing else about it changed. */
  lemma TickSendsOneShot(rs: seq<Reminder>, now: Timestamp, k: nat)
    requires UniqueIds(rs) && k < |rs|
    requires IsDue(rs[k], now) && rs[k].recurrence.None?
    ensures TickResult(rs, now)[k] == rs[k].(sent := true)
  {
    TickResultPointwise(rs, now);
  }

  /**
   * An unsent reminder whose recurrence passed validation is still unsent
   * after the tick, and if it was due it now lies in the future.
   */
  lemma AcceptedRecurringNeverSent(rs: seq<Reminder>, now: Timestamp, k: nat)
    requires UniqueIds(rs) && k < |rs|
    requires !rs[k].sent && rs[k].recurrence.Some? && ValidateRecurrence(rs[k].recurrence.value).Pass?
    ensures !TickResult(rs, now)[k].sent
    ensures IsDue(rs[k], now) ==> TickResult(rs, now)[k].dueTime > now
  {
    TickResultPointwise(rs, now);
    AcceptedReminderRecurs(rs[k], now);
  }
}
