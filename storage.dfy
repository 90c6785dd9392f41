/**
 * The reminder store (src/storage.rs): an in-memory list of reminders, the
 * queries over it and the in-place updates, each followed by a whole-list
 * snapshot write.
 */
module Storage {
  import opened Wrappers
  import opened Filtering
  import opened Models

  datatype StorageError = PersistenceFailed

  predicate IsDue(r: Reminder, now: Timestamp) {
    !r.sent && r.dueTime <= now
  }

  predicate IsUpcoming(r: Reminder, now: Timestamp) {
    !r.sent && r.dueTime > now
  }

  /** `get_due_reminders`: the unsent reminders whose due time is at or before `now`, in store order. */
  function Due(rs: seq<Reminder>, now: Timestamp): (due: seq<Reminder>)
    ensures forall x :: x in due <==> x in rs && IsDue(x, now)
  {
    Filter(rs, (r: Reminder) => IsDue(r, now))
  }

  /** The filter step of `get_upcoming_reminders`: the unsent reminders due strictly after `now`. */
  function Upcoming(rs: seq<Reminder>, now: Timestamp): (upcoming: seq<Reminder>)
    ensures forall x :: x in upcoming <==> x in rs && IsUpcoming(x, now)
  {
    Filter(rs, (r: Reminder) => IsUpcoming(r, now))
  }

  function Unsent(rs: seq<Reminder>): seq<Reminder> {
    Filter(rs, (r: Reminder) => !r.sent)
  }

  /** With no reminder due at `now`, the due query is empty. */
  lemma {:induction false} NothingDue(rs: seq<Reminder>, now: Timestamp)
    requires forall k :: 0 <= k < |rs| ==> !IsDue(rs[k], now)
    ensures Due(rs, now) == []
    decreases |rs|
  {
    if rs != [] {
      var init := rs[..|rs| - 1];
      assert forall k :: 0 <= k < |init| ==> init[k] == rs[k];
      NothingDue(init, now);
    }
  }

  /**
   * For one `now`, the due and the upcoming reminders are disjoint and together
   * are exactly the unsent ones, duplicates included.
   */
  lemma DueAndUpcomingPartitionUnsent(rs: seq<Reminder>, now: Timestamp)
    ensures multiset(Due(rs, now)) + multiset(Upcoming(rs, now)) == multiset(Unsent(rs))
    ensures forall x :: !(x in Due(rs, now) && x in Upcoming(rs, now))
  {
    var d, u, a := multiset(Due(rs, now)), multiset(Upcoming(rs, now)), multiset(Unsent(rs));
    FilterMultiplicity(rs, (r: Reminder) => IsDue(r, now));
    FilterMultiplicity(rs, (r: Reminder) => IsUpcoming(r, now));
    FilterMultiplicity(rs, (r: Reminder) => !r.sent);
    forall x: Reminder
      ensures (d + u)[x] == a[x]
    {
      assert d[x] == if IsDue(x, now) then multiset(rs)[x] else 0;
      assert u[x] == if IsUpcoming(x, now) then multiset(rs)[x] else 0;
      assert a[x] == if !x.sent then multiset(rs)[x] else 0;
    }
    assert d + u == a;
  }

  // ---------------------------------------------------------------------------
  // Stable sort by due time (`sort_by(|a, b| a.due_time.cmp(&b.due_time))`)

  predicate SortedByDue(s: seq<Reminder>) {
    forall i, j :: 0 <= i < j < |s| ==> s[i].dueTime <= s[j].dueTime
  }

  /** The reminders of `s` due exactly at `d`, in order: what stability preserves. */
  function WithDue(s: seq<Reminder>, d: Timestamp): seq<Reminder> {
    Filter(s, (r: Reminder) => r.dueTime == d)
  }

  /** Insert `x` after every element due no later than it (scanning from the end). */
  function InsertByDue(s: seq<Reminder>, x: Reminder): (r: seq<Reminder>)
    ensures |r| == |s| + 1
    decreases |s|
  {
    if s == [] || s[|s| - 1].dueTime <= x.dueTime then s + [x]
    else
      var init, last := s[..|s| - 1], s[|s| - 1];
      assert s == init + [last];
      InsertByDue(init, x) + [last]
  }

  /** Insertion sort by due time. */
  function SortByDue(s: seq<Reminder>): (r: seq<Reminder>)
    ensures |r| == |s|
    decreases |s|
  {
    if s == [] then []
    else
      var init, last := s[..|s| - 1], s[|s| - 1];
      assert s == init + [last];
      InsertByDue(SortByDue(init), last)
  }

  lemma {:induction false} InsertByDuePermutes(s: seq<Reminder>, x: Reminder)
    ensures multiset(InsertByDue(s, x)) == multiset(s) + multiset{x}
    decreases |s|
  {
    if s != [] && s[|s| - 1].dueTime > x.dueTime {
      var init, last := s[..|s| - 1], s[|s| - 1];
      assert s == init + [last];
      InsertByDuePermutes(init, x);
    }
  }

  /** The sort only reorders. */
  lemma {:induction false} SortByDuePermutes(s: seq<Reminder>)
    ensures multiset(SortByDue(s)) == multiset(s)
    decreases |s|
  {
    if s != [] {
      var init, last := s[..|s| - 1], s[|s| - 1];
      assert s == init + [last];
      SortByDuePermutes(init);
      InsertByDuePermutes(SortByDue(init), last);
    }
  }

  lemma {:induction false} InsertByDueSorted(s: seq<Reminder>, x: Reminder)
    requires SortedByDue(s)
    ensures SortedByDue(InsertByDue(s, x))
    decreases |s|
  {
    if s != [] && s[|s| - 1].dueTime > x.dueTime {
      var init, last := s[..|s| - 1], s[|s| - 1];
      InsertByDueSorted(init, x);
      var r' := InsertByDue(init, x);
      InsertByDuePermutes(init, x);
      forall i | 0 <= i < |r'| ensures r'[i].dueTime <= last.dueTime {
        assert r'[i] in multiset(r');
        assert r'[i] in multiset(init) || r'[i] == x;
      }
    }
  }

  /** The sort orders by due time. */
  lemma {:induction false} SortByDueSorted(s: seq<Reminder>)
    ensures SortedByDue(SortByDue(s))
    decreases |s|
  {
    if s != [] {
      SortByDueSorted(s[..|s| - 1]);
      InsertByDueSorted(SortByDue(s[..|s| - 1]), s[|s| - 1]);
    }
  }

  /** Selecting by due time distributes over concatenation. */
  lemma {:induction false} WithDueAppend(a: seq<Reminder>, b: seq<Reminder>, d: Timestamp)
    ensures WithDue(a + b, d) == WithDue(a, d) + WithDue(b, d)
  {
    FilterAppend(a, b, (r: Reminder) => r.dueTime == d);
  }

  lemma {:induction false} InsertByDueStable(s: seq<Reminder>, x: Reminder, d: Timestamp)
    ensures WithDue(InsertByDue(s, x), d) == WithDue(s, d) + WithDue([x], d)
    decreases |s|
  {
    if s == [] || s[|s| - 1].dueTime <= x.dueTime {
      assert InsertByDue(s, x) == s + [x];
      WithDueAppend(s, [x], d);
    } else {
      var init, last := s[..|s| - 1], s[|s| - 1];
      assert s == init + [last];
      var r' := InsertByDue(init, x);
      assert InsertByDue(s, x) == r' + [last];
      InsertByDueStable(init, x, d);
      WithDueAppend(r', [last], d);
      WithDueAppend(init, [last], d);
      assert WithDue([x], d) == [] || WithDue([last], d) == [];
    }
  }

  /** The sort is stable: reminders due at the same instant keep their relative order. */
  lemma {:induction false} SortByDueStable(s: seq<Reminder>, d: Timestamp)
    ensures WithDue(SortByDue(s), d) == WithDue(s, d)
    decreases |s|
  {
    if s != [] {
      var init, last := s[..|s| - 1], s[|s| - 1];
      assert s == init + [last];
      SortByDueStable(init, d);
      InsertByDueStable(SortByDue(init), last, d);
      WithDueAppend(init, [last], d);
    }
  }

  /** Where the insertion loop stops, InsertByDue puts `x`. */
  lemma {:induction false} InsertByDueAt(s: seq<Reminder>, x: Reminder, j: nat)
    requires j <= |s|
    requires j == 0 || s[j - 1].dueTime <= x.dueTime
    requires forall k :: j <= k < |s| ==> s[k].dueTime > x.dueTime
    ensures InsertByDue(s, x) == s[..j] + [x] + s[j..]
    decreases |s|
  {
    if j < |s| {
      var init, last := s[..|s| - 1], s[|s| - 1];
      InsertByDueAt(init, x, j);
      assert init[..j] == s[..j];
      assert init[j..] + [last] == s[j..];
    }
  }

  /**
   * The shifting loop of one insertion pass: the later-due elements of the
   * sorted prefix move one place right, leaving a gap at `j`.
   */
  method ShiftLater(a: array<Reminder>, i: nat, ghost sorted: seq<Reminder>, x: Reminder) returns (j: nat)
    requires i < a.Length && sorted == a[..i]
    modifies a
    ensures j <= i
    ensures forall k :: 0 <= k < j ==> a[k] == sorted[k]
    ensures forall k :: j < k <= i ==> a[k] == sorted[k - 1]
    ensures forall k :: i < k < a.Length ==> a[k] == old(a[k])
    ensures j == 0 || sorted[j - 1].dueTime <= x.dueTime
    ensures forall k :: j <= k < i ==> sorted[k].dueTime > x.dueTime
  {
    ghost var orig := a[..];
    j := i;
    while j > 0 && a[j - 1].dueTime > x.dueTime
      invariant 0 <= j <= i
      invariant forall k :: 0 <= k < j ==> a[k] == sorted[k]
      invariant forall k :: j < k <= i ==> a[k] == sorted[k - 1]
      invariant forall k :: i < k < a.Length ==> a[k] == orig[k]
      invariant forall k :: j <= k < i ==> sorted[k].dueTime > x.dueTime
    {
      assert sorted[j - 1] == a[j - 1];
      a[j] := a[j - 1];
      j := j - 1;
    }
  }

  /** One pass of the insertion sort: `a[i]` moves left past the later-due prefix elements. */
  method InsertStep(a: array<Reminder>, i: nat)
    requires i < a.Length
    modifies a
    ensures a[..i + 1] == InsertByDue(old(a[..i]), old(a[i]))
    ensures a[i + 1..] == old(a[i + 1..])
  {
    ghost var sorted := a[..i];
    ghost var rest := a[i + 1..];
    var x := a[i];
    var j := ShiftLater(a, i, sorted, x);
    a[j] := x;
    InsertByDueAt(sorted, x, j);
    ghost var goal := sorted[..j] + [x] + sorted[j..];
    assert a[..i + 1] == goal by {
      assert forall k :: 0 <= k <= i ==> a[..i + 1][k] == goal[k];
    }
    assert a[i + 1..] == rest by {
      assert forall k :: 0 <= k < |rest| ==> a[i + 1..][k] == rest[k];
    }
  }

  /** Sorting one more element of the input is inserting it into the sorted prefix. */
  lemma SortByDuePrefix(input: seq<Reminder>, i: nat)
    requires i < |input|
    ensures SortByDue(input[..i + 1]) == InsertByDue(SortByDue(input[..i]), input[i])
  {
    assert input[..i + 1][..i] == input[..i];
  }

  /** One turn of the sorting loop: the sorted prefix grows by one, the rest is untouched. */
  method SortStep(a: array<Reminder>, i: nat, ghost input: seq<Reminder>)
    requires i < a.Length && |input| == a.Length
    requires a[..i] == SortByDue(input[..i]) && a[i..] == input[i..]
    modifies a
    ensures a[..i + 1] == SortByDue(input[..i + 1]) && a[i + 1..] == input[i + 1..]
  {
    assert a[i] == input[i] by { assert a[i..][0] == input[i..][0]; }
    assert a[i + 1..] == input[i + 1..] by { assert a[i + 1..] == a[i..][1..]; }
    SortByDuePrefix(input, i);
    InsertStep(a, i);
  }

  /** Insertion sort of an array in place; the result is SortByDue of the old contents. */
  method SortInPlace(a: array<Reminder>)
    modifies a
    ensures a[..] == SortByDue(old(a[..]))
  {
    ghost var input := a[..];
    var i := 0;
    while i < a.Length
      invariant 0 <= i <= a.Length
      invariant a[..i] == SortByDue(input[..i])
      invariant a[i..] == input[i..]
    {
      SortStep(a, i, input);
      i := i + 1;
    }
    assert input[..a.Length] == input;
    assert a[..] == a[..a.Length];
  }

  // ---------------------------------------------------------------------------
  // Updates of the first reminder with a given id (`iter_mut().find(|r| r.id == id)`)

  /** The index of the first reminder with this id, if any. */
  function FirstWithId(rs: seq<Reminder>, id: string): (k: Option<nat>)
    ensures k.Some? ==> k.value < |rs| && rs[k.value].id == id
    ensures k.Some? ==> forall j :: 0 <= j < k.value ==> rs[j].id != id
    ensures k.None? ==> forall j :: 0 <= j < |rs| ==> rs[j].id != id
    decreases |rs|
  {
    if rs == [] then None
    else if rs[0].id == id then Some(0)
    else
      match FirstWithId(rs[1..], id)
      case None => None
      case Some(k) => Some(k + 1)
  }

  predicate SameIds(a: seq<Reminder>, b: seq<Reminder>) {
    |a| == |b| && forall k :: 0 <= k < |a| ==> a[k].id == b[k].id
  }

  /** The search depends only on the ids. */
  lemma FirstWithIdSameIds(a: seq<Reminder>, b: seq<Reminder>, id: string)
    requires SameIds(a, b)
    ensures FirstWithId(a, id) == FirstWithId(b, id)
  {
    var ka, kb := FirstWithId(a, id), FirstWithId(b, id);
    if ka.Some? && kb.Some? {
      assert !(ka.value < kb.value) && !(kb.value < ka.value);
    }
  }

  /** Appending a reminder only matters to the search when the id was absent before. */
  lemma FirstWithIdAppend(xs: seq<Reminder>, y: Reminder, id: string)
    ensures FirstWithId(xs + [y], id) ==
              if FirstWithId(xs, id).Some? then FirstWithId(xs, id)
              else if y.id == id then Some(|xs|) else None
  {
    var a, b := FirstWithId(xs + [y], id), FirstWithId(xs, id);
    if b.Some? {
      assert (xs + [y])[b.value] == xs[b.value];
    } else {
      assert (xs + [y])[|xs|] == y;
    }
  }

  /** `mark_as_sent` on the list: the first reminder with the id becomes sent. */
  function MarkedSent(rs: seq<Reminder>, id: string): (r: seq<Reminder>)
    ensures SameIds(rs, r)
    ensures FirstWithId(rs, id).None? ==> r == rs
    ensures FirstWithId(rs, id).Some? ==>
              var k := FirstWithId(rs, id).value;
              r[k] == rs[k].(sent := true) && forall j :: 0 <= j < |rs| && j != k ==> r[j] == rs[j]
  {
    match FirstWithId(rs, id)
    case None => rs
    case Some(k) => rs[k := rs[k].(sent := true)]
  }

  /** `reschedule_reminder` on the list: the first reminder with the id gets the new due time and is unsent. */
  function Rescheduled(rs: seq<Reminder>, id: string, next: Timestamp): (r: seq<Reminder>)
    ensures SameIds(rs, r)
    ensures FirstWithId(rs, id).None? ==> r == rs
    ensures FirstWithId(rs, id).Some? ==>
              var k := FirstWithId(rs, id).value;
              r[k] == rs[k].(dueTime := next, sent := false) && forall j :: 0 <= j < |rs| && j != k ==> r[j] == rs[j]
  {
    match FirstWithId(rs, id)
    case None => rs
    case Some(k) => rs[k := rs[k].(dueTime := next, sent := false)]
  }

  /** Marking the same id twice leaves the list as marking it once. */
  lemma MarkedSentIdempotent(rs: seq<Reminder>, id: string)
    ensures MarkedSent(MarkedSent(rs, id), id) == MarkedSent(rs, id)
  {
    FirstWithIdSameIds(rs, MarkedSent(rs, id), id);
  }

  /** Rescheduling the same id to the same instant twice leaves the list as doing it once. */
  lemma RescheduledIdempotent(rs: seq<Reminder>, id: string, next: Timestamp)
    ensures Rescheduled(Rescheduled(rs, id, next), id, next) == Rescheduled(rs, id, next)
  {
    FirstWithIdSameIds(rs, Rescheduled(rs, id, next), id);
  }

  // ---------------------------------------------------------------------------
  // The store

  /**
   * `ReminderStorage`. The list behind the lock is `reminders`; `snapshot` is
   * what the last successful write put on disk; `diskWritable` says whether a
   * snapshot write succeeds. Every operation is one atomic step.
   */
  class ReminderStorage {
    var reminders: seq<Reminder>
    var diskWritable: bool
    ghost var snapshot: seq<Reminder>

    /** The store over the list loaded from disk (the JSON load itself is not modelled). */
    constructor (loaded: seq<Reminder>, diskWritable: bool)
      ensures reminders == loaded && snapshot == loaded
      ensures this.diskWritable == diskWritable
    {
      reminders := loaded;
      snapshot := loaded;
      this.diskWritable := diskWritable;
    }

    /** `save_to_disk`: write the whole list, or fail and leave the old snapshot. */
    method Save() returns (res: Outcome<StorageError>)
      modifies this`snapshot
      ensures res == if diskWritable then Pass else Fail(PersistenceFailed)
      ensures snapshot == if diskWritable then reminders else old(snapshot)
    {
      if diskWritable {
        snapshot := reminders;
        res := Pass;
      } else {
        res := Fail(PersistenceFailed);
      }
    }

    /** `add_reminder`: append, then write; a failed write leaves the append in memory. */
    method AddReminder(reminder: Reminder) returns (res: Result<Reminder, StorageError>)
      modifies this`reminders, this`snapshot
      ensures reminders == old(reminders) + [reminder]
      ensures res == if diskWritable then Ok(reminder) else Err(PersistenceFailed)
      ensures snapshot == if diskWritable then reminders else old(snapshot)
    {
      reminders := reminders + [reminder];
      var saved := Save();
      res := if saved.Pass? then Ok(reminder) else Err(PersistenceFailed);
    }

    /** `get_due_reminders` at the clock reading `now`. */
    function GetDueReminders(now: Timestamp): seq<Reminder>
      reads this
    {
      Due(reminders, now)
    }

    /** `get_all_reminders`: a copy of the whole list. */
    function GetAllReminders(): seq<Reminder>
      reads this
    {
      reminders
    }

    /**
     * `get_upcoming_reminders` at the clock reading `now`: the upcoming
     * reminders copied out and sorted in place by due time.
     */
    method GetUpcomingReminders(now: Timestamp) returns (upcoming: seq<Reminder>)
      ensures upcoming == SortByDue(Upcoming(reminders, now))
      ensures SortedByDue(upcoming)
      ensures multiset(upcoming) == multiset(Upcoming(reminders, now))
      ensures forall x :: x in upcoming <==> x in reminders && IsUpcoming(x, now)
    {
      var filtered := Upcoming(reminders, now);
      var a := new Reminder[|filtered|](i requires 0 <= i < |filtered| => filtered[i]);
      assert a[..] == filtered;
      SortInPlace(a);
      upcoming := a[..];
      SortByDueSorted(filtered);
      SortByDuePermutes(filtered);
      assert forall x :: x in upcoming <==> x in multiset(filtered);
    }

    /** `mark_as_sent`: an absent id changes nothing and writes nothing. */
    method MarkAsSent(id: string) returns (res: Outcome<StorageError>)
      modifies this`reminders, this`snapshot
      ensures reminders == MarkedSent(old(reminders), id)
      ensures FirstWithId(old(reminders), id).None? ==> res == Pass && snapshot == old(snapshot)
      ensures FirstWithId(old(reminders), id).Some? ==>
                && res == (if diskWritable then Pass else Fail(PersistenceFailed))
                && snapshot == (if diskWritable then reminders else old(snapshot))
    {
      var found := FirstWithId(reminders, id);
      if found.None? {
        return Pass;
      }
      var k := found.value;
      reminders := reminders[k := reminders[k].(sent := true)];
      res := Save();
    }

    /** `reschedule_reminder`: an absent id changes nothing and writes nothing. */
    method RescheduleReminder(id: string, next: Timestamp) returns (res: Outcome<StorageError>)
      modifies this`reminders, this`snapshot
      ensures reminders == Rescheduled(old(reminders), id, next)
      ensures FirstWithId(old(reminders), id).None? ==> res == Pass && snapshot == old(snapshot)
      ensures FirstWithId(old(reminders), id).Some? ==>
                && res == (if diskWritable then Pass else Fail(PersistenceFailed))
                && snapshot == (if diskWritable then reminders else old(snapshot))
    {
      var found := FirstWithId(reminders, id);
      if found.None? {
        return Pass;
      }
      var k := found.value;
      reminders := reminders[k := reminders[k].(dueTime := next, sent := false)];
      res := Save();
    }
  }
}
