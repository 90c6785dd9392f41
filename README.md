# Reminder engine and quiz file store, modelled in Dafny

This project models two parts of a Rust reminder service and of the study-quiz
command-line tool built beside it.

**Reminder engine.**
- `Models`: the `Reminder` record and `calculate_next_occurrence`. The recurrence string is classified as daily, weekly or a number of minutes, then the due time is stepped forward until it lies strictly after the clock reading.
- `Storage`: the `ReminderStorage` list with its queries.
  - The due query keeps store order.
  - The upcoming query is sorted in place, stably, by due time.
  - Other operations: append, `mark_as_sent`, `reschedule_reminder`, and a whole-list snapshot write after each change.
- `Service`: the request validation of `create_reminder` and one pass of the `notification_service` loop.

**Quiz store and commands.**
- `UserModels`, `UserStore`: users with unique names, uploaded files looked up per owner, and tags treated as a duplicate-free list.
- `Quiz`: comma-list parsing, the sign-up checks, `tag_file`, `bulk_tag_files`, `bulk_untag_files`, and the text of a study notification.

**Support modules.**
- `Text`: the Rust string behaviour the code relies on. This covers `to_lowercase`, `trim`, `ends_with`, `trim_end_matches`, `split`, `parse::<i64>` and `len()` as a UTF-8 byte count.
- `Filtering`: order-keeping filters.
- `Wrappers`: `Option`, `Result` and `Outcome`.

**How the environment is modelled.**
- Instants are integers counting nanoseconds since the Unix epoch. The clock reading and the generated UUIDs are parameters.
- Each store is a class. Its in-memory lists are fields, and a ghost field holds what the last successful write put on disk.
- A flag `diskWritable` says whether writes succeed. Every write changes memory first and then writes the snapshot or fails, so a failed write keeps the change in memory, as the source does.
- Each store operation is one atomic step, which is what the locks give.

**Where the validator and the scheduler disagree.** The validator in `create_reminder` (src/main.rs:89-91) detects the "minutes" suffix on the lower-cased string but strips it from the original string. `calculate_next_occurrence` (src/models.rs:34-39) strips it from the lower-cased string. So "60 MINUTES" is refused at ingestion as an invalid format, although the scheduler would read it as 60 minutes. The model keeps both behaviours: see `Service.UpperCaseMinutesRejected`.

**Sorting.** `get_upcoming_reminders` calls the library's stable `sort_by`. The model sorts in place with an insertion sort. It proves the result is sorted by due time, is a permutation of its input, and keeps the store order of reminders due at the same instant. Every stable sort returns that same list.

## Model

| member | source | states |
|---|---|---|
| Models.NewReminder | src/models.rs:17-26 | a new reminder is unsent and has the given id and creation instant; message, due time, username and recurrence are copied unchanged |
| Models.RecurrenceInterval | src/models.rs:34-53 | any interval the classification yields is strictly positive |
| Models.DailyAndWeeklyIgnoreCase | src/models.rs:34-36 | any string that lower-cases to "daily" gives one day and any that lower-cases to "weekly" gives seven days, so "Daily" and "WEEKLY" are recognised |
| Models.StripDoubledSuffix | src/models.rs:39 | `trim_end_matches` strips every trailing "minutes", so "5minutesminutes" becomes "5" |
| Models.RepeatedSuffixStripped | src/models.rs:37-42 | "5minutesminutes" means five minutes |
| Models.UnusableIntervals | src/models.rs:37-52 | every string that, lower-cased, is neither "daily" nor "weekly", does not parse as an integer and does not end in "minutes" gives no interval ("hourly" is one); "minutes" alone (nothing to parse) and "0" (not positive) give none either |
| Models.MinutesFormInterval | src/models.rs:37-48 | a lower-cased string ending in "minutes" whose stripped, trimmed rest parses to a positive count m gives exactly m minutes |
| Models.CatchUp | src/models.rs:56-59 | the catch-up result lies strictly after now and never before its start |
| Models.NextOccurrence | src/models.rs:29-62 | no recurrence gives None; a result lies after both now and the due time and exists only for a schedulable interval; a due time not yet past gives exactly due time plus one interval |
| Models.CatchUpSteps | src/models.rs:56-59 | the loop ends after the fewest interval steps that pass now |
| Models.NextOccurrenceIsFirstFutureStep | src/models.rs:56-59 | the next occurrence is due time + k·interval for the smallest k ≥ 1 that lands after now, so missed occurrences are skipped |
| Models.OverdueDailySkipsMissedOccurrence | src/models.rs:55-59 | a daily reminder 36 hours overdue moves to its due time plus two days |
| Models.StepPast | src/models.rs:56-59 | the `while` loop returns the catch-up instant and terminates because the step is positive |
| Models.CalculateNextOccurrence | src/models.rs:29-62 | the imperative computation returns NextOccurrence, which lies after now |
| Filtering.Filter | src/storage.rs:41-45 | an element is in the result exactly when it is in the input and passes the test |
| Filtering.FilterMultiplicity | src/storage.rs:55-59 | the filter keeps every occurrence of a passing element and none of the others |
| Filtering.FilterAppend | src/user_storage.rs:94 | filtering a concatenation filters each part in order |
| Filtering.FilterNoDuplicates | src/user_storage.rs:94 | filtering a duplicate-free list keeps it duplicate-free |
| Storage.Due | src/storage.rs:51-60 | a reminder is due exactly when it is unsent and due at or before now |
| Storage.Upcoming | src/storage.rs:41-45 | a reminder is upcoming exactly when it is unsent and due strictly after now |
| Storage.DueAndUpcomingPartitionUnsent | src/storage.rs:37-60 | at one clock reading, the due and upcoming results never share a reminder and together are the unsent reminders, duplicates included |
| Storage.SortByDuePermutes | src/storage.rs:47 | sorting only reorders: the multiset of reminders is kept |
| Storage.SortByDueSorted | src/storage.rs:47 | the sorted list is ascending by due time |
| Storage.SortByDueStable | src/storage.rs:47 | reminders due at the same instant keep their relative order |
| Storage.InsertByDuePermutes | src/storage.rs:47 | one insertion adds exactly the inserted reminder |
| Storage.InsertByDueSorted | src/storage.rs:47 | inserting into a sorted list keeps it sorted |
| Storage.InsertByDueStable | src/storage.rs:47 | insertion places the new reminder after those due at the same instant |
| Storage.ShiftLater | src/storage.rs:47 | the shifting loop moves the later-due prefix elements one place right and leaves the rest of the array alone |
| Storage.InsertStep | src/storage.rs:47 | one pass inserts `a[i]` into the sorted prefix and leaves the suffix alone |
| Storage.SortStep | src/storage.rs:47 | one pass extends the sorted prefix of the input by one element |
| Storage.SortInPlace | src/storage.rs:47 | sorting the array in place leaves the stable sort of its old contents |
| Storage.FirstWithId | src/storage.rs:65 | the index found holds the id and no earlier index does; None means no reminder has the id |
| Storage.FirstWithIdSameIds | src/storage.rs:65 | the search depends only on ids |
| Storage.FirstWithIdAppend | src/storage.rs:65 | appending changes the search result only when the id was absent before |
| Storage.MarkedSent | src/storage.rs:62-71 | only the first reminder with the id is marked sent; length, ids and every other reminder are unchanged; an absent id changes nothing |
| Storage.Rescheduled | src/storage.rs:73-83 | only the first reminder with the id gets the new due time and is unsent; an absent id changes nothing |
| Storage.MarkedSentIdempotent | src/storage.rs:65-67 | marking the same id twice is marking it once |
| Storage.RescheduledIdempotent | src/storage.rs:76-79 | rescheduling the same id to the same instant twice is doing it once |
| Storage.ReminderStorage.constructor | src/storage.rs:15-28 | the store starts with the loaded list, which is also what is on disk |
| Storage.ReminderStorage.Save | src/storage.rs:90-96 | a write puts the whole list on disk or fails and leaves the old snapshot |
| Storage.ReminderStorage.AddReminder | src/storage.rs:30-35 | the reminder is appended at the end and everything before it is unchanged; it is returned when the write succeeds; a failed write keeps the append in memory |
| Storage.ReminderStorage.GetUpcomingReminders | src/storage.rs:37-49 | the result is exactly the upcoming reminders, sorted by due time, a permutation of the filtered list, and the store is unchanged |
| Storage.ReminderStorage.MarkAsSent | src/storage.rs:62-71 | the list becomes MarkedSent; an absent id returns Ok and writes nothing; a found one is written, or the write error is returned with the change kept |
| Storage.ReminderStorage.RescheduleReminder | src/storage.rs:73-83 | the list becomes Rescheduled; an absent id is a no-op returning Ok; a found one is written or the error returned |
| Service.ValidateRecurrence | src/main.rs:76-114 | presets are accepted in any case; a whole-string integer is accepted exactly when positive; failures are only the two recurrence errors |
| Service.ValidateRequest | src/main.rs:58-114 | a request passes exactly when the date parsed, the message is not blank and a given recurrence is accepted; the checks fail in the source's order with the source's error |
| Service.PresetsAnyCase | src/main.rs:77-79 | "Daily" and "WEEKLY" are accepted |
| Service.NonPositiveCountsRejected | src/main.rs:81-88 | "0" and "-5" are refused as non-positive |
| Service.MinutesFormVerdict | src/main.rs:89-107 | in the "minutes" branch the verdict follows the count read from the stripped and trimmed rest |
| Service.SixtyMinutesAccepted | src/main.rs:89-94 | "60minutes" is accepted |
| Service.PaddedSixtyMinutesAccepted | src/main.rs:89-94 | " 60 minutes" is accepted |
| Service.NegativeMinutesRejected | src/main.rs:89-100 | "-5 minutes" is refused as non-positive |
| Service.UpperCaseMinutesRejected | src/main.rs:89-107 | "60 MINUTES" is refused as an invalid format, although the scheduler reads it as 60 minutes |
| Service.UpperCaseMinutesValidated | src/main.rs:89-107 | the validator refuses "60 MINUTES" |
| Service.UpperCaseMinutesScheduled | src/models.rs:37-50 | the scheduler reads "60 MINUTES" as 60 minutes |
| Service.OtherWordsRejected | src/main.rs:108-113 | every string that is neither "daily" nor "weekly" in any case, does not parse as an integer and does not end in "minutes" once lower-cased is refused as an invalid format; "hourly" is one such string |
| Service.MinutesBranchAgrees | src/main.rs:91 | once the stripped rest parses, the validator (stripping the original) and the scheduler (stripping the lower-cased string) read the same count |
| Service.IntegerSchedulable | src/models.rs:37-48 | a string the validator reads as a positive count (src/main.rs:81-86) is read by the scheduler as that many minutes |
| Service.MinutesSchedulable | src/main.rs:89-94 | a "minutes" form whose stripped rest the validator reads as a positive count also has an interval in the scheduler |
| Service.AcceptedRecurrenceIsSchedulable | src/main.rs:76-114 | every recurrence the validator accepts has an interval in `calculate_next_occurrence`; this holds with unbounded integers only, since a huge accepted count makes chrono overflow and panic (see "## Left out") |
| Service.AcceptedReminderRecurs | src/main.rs:186-194 | a reminder with an accepted recurrence always has a next occurrence; this holds with unbounded integers only, since a huge accepted count makes chrono overflow and panic (see "## Left out") |
| Service.CreateReminder | src/main.rs:54-141 | a refused request answers Bad Request with its reason and leaves the store untouched; an accepted one appends the new reminder and answers Created, or Internal Server Error when the write fails |
| Service.DeliverAll | src/main.rs:168-200 | delivering reminders keeps the length and ids of the list |
| Service.DeliverOne | src/main.rs:186-200 | a due reminder is rescheduled to its next occurrence when it has one and marked sent otherwise; a failed write is reported |
| Service.DeliverNext | src/main.rs:168-203 | one loop turn delivers the next due reminder and records its id when the write fails |
| Service.TickFinished | src/main.rs:166-203 | once every due reminder is delivered, the store is TickResult and the failures are the ids of all due reminders when writes fail |
| Service.NotificationTick | src/main.rs:166-207 | the pass delivers exactly the due reminders, in order, and a failed write does not stop it; failures list the ids whose write failed |
| Service.Fire | src/main.rs:186-200 | a delivered reminder keeps its id, message and recurrence, is not due any more, and is sent exactly when it has no next occurrence |
| Service.TickResultPointwise | src/main.rs:166-200 | with unique ids, the store after a pass is every due reminder fired in place and every other unchanged |
| Service.TickClearsDue | src/main.rs:166-200 | with unique ids, nothing is due at the same clock reading after a pass |
| Service.TickLeavesOthers | src/main.rs:166-200 | a reminder that was not due is unchanged by a pass |
| Service.TickSendsOneShot | src/main.rs:195-200 | a due one-shot reminder ends up sent with nothing else changed |
| Service.AcceptedRecurringNeverSent | src/main.rs:186-194 | a reminder whose recurrence passed validation is never left sent, and if due it moves past now |
| UserModels.NewUser | src/user_models.rs:14-21 | the user has the given name and hash, the given id and the creation instant |
| UserModels.NewUploadedFile | src/user_models.rs:36-45 | the file has no tags and carries owner, name and content unchanged |
| UserModels.FromRecord | src/user_models.rs:31-32 | a stored record without a tag list reads back with the empty list |
| UserModels.ToRecord | src/user_models.rs:24-33 | a written record always carries its tag list |
| UserModels.FileRoundTrip | src/user_models.rs:24-33 | a file written out and read back is the same file |
| UserModels.MissingTagsReadAsEmpty | src/user_models.rs:31-32 | a record with no tags reads exactly as one with an empty tag list |
| UserModels.RecordRoundTrip | src/user_models.rs:24-33 | a record that has its tags reads and writes back unchanged |
| UserStore.FindUser | src/user_storage.rs:53-56 | finds the first user with exactly that name, or None when there is none |
| UserStore.FindUserUnique | src/user_storage.rs:53-56 | with unique names, the user found is the one with that name |
| UserStore.AppendKeepsUnique | src/user_storage.rs:44-48 | appending a user with a new name keeps names unique |
| UserStore.FilesOf | src/user_storage.rs:65-68 | a file is listed exactly when it belongs to the user |
| UserStore.FindFileIndex | src/user_storage.rs:78 | the index found is the first file matching both id and owner; None when no file matches both |
| UserStore.FindFile | src/user_storage.rs:70-73 | a file is found only when both id and owner match |
| UserStore.OtherOwnersFileInvisible | src/user_storage.rs:72 | another user's file is never returned |
| UserStore.FindFileIndexSameKeys | src/user_storage.rs:78 | the search depends only on ids and owners |
| UserStore.WithTag | src/user_storage.rs:79-80 | the tag is appended only when absent |
| UserStore.WithoutTag | src/user_storage.rs:94 | every occurrence of the tag goes and the other tags stay |
| UserStore.WithTagNoDuplicates | src/user_storage.rs:79-80 | adding never creates a duplicate |
| UserStore.WithoutTagNoDuplicates | src/user_storage.rs:94 | removing never creates a duplicate |
| UserStore.WithoutTagCounts | src/user_storage.rs:94 | the other tags keep every occurrence and the removed tag keeps none |
| UserStore.WithoutAbsentTag | src/user_storage.rs:94 | removing an absent tag changes nothing |
| UserStore.AddThenRemoveTag | src/user_storage.rs:75-101 | adding an absent tag and then removing it gives the original list |
| UserStore.TagEditsIdempotent | src/user_storage.rs:79-94 | adding twice is adding once; removing twice is removing once |
| UserStore.TagAdded | src/user_storage.rs:75-88 | only the first matching file changes, by WithTag; nothing changes when no write is due |
| UserStore.TagRemoved | src/user_storage.rs:90-101 | only the first matching file changes, by WithoutTag |
| UserStore.AddTagOutcome | src/user_storage.rs:75-88 | "file not found" exactly when no file matches; a write error exactly when a write was due and failed |
| UserStore.TagAddedIdempotent | src/user_storage.rs:79-81 | tagging a file twice with one tag is tagging it once |
| UserStore.TagRemovedIdempotent | src/user_storage.rs:93-95 | untagging a file twice with one tag is untagging it once |
| UserStore.UserStorage.constructor | src/user_storage.rs:16-39 | the store starts with the loaded lists, which are also what is on disk |
| UserStore.UserStorage.SaveUsers | src/user_storage.rs:103-109 | the users list is written or the write fails |
| UserStore.UserStorage.SaveFiles | src/user_storage.rs:111-117 | the files list is written or the write fails |
| UserStore.UserStorage.CreateUser | src/user_storage.rs:41-51 | a taken name is refused and nothing changes; otherwise the user is appended and written; unique names stay unique |
| UserStore.UserStorage.AddFile | src/user_storage.rs:58-63 | the file is appended unchanged and written |
| UserStore.UserStorage.AddTagToFile | src/user_storage.rs:75-88 | the files become TagAdded, with the outcome AddTagOutcome; a write happens only when the tag was missing |
| UserStore.UserStorage.RemoveTagFromFile | src/user_storage.rs:90-101 | an unknown file is an error and writes nothing; otherwise the files become TagRemoved and are written |
| Text.Lower | src/models.rs:34 | lower-casing keeps the length and works character by character |
| Text.Trim | src/main.rs:68 | the result is a slice of the input with only whitespace before and after it; it is empty exactly for a blank string, and otherwise starts and ends with a non-whitespace character |
| Text.TrimmedEnds | src/main.rs:68 | what trimming keeps lies between the two cuts, and both cuts are whitespace only |
| Text.TrimEndMatches | src/models.rs:39 | the result starts the input and no longer ends with the pattern |
| Text.TrimLower | src/main.rs:91 | trimming and lower-casing commute |
| Text.TrimIdempotent | src/bin/quiz.rs:402 | trimming twice is trimming once |
| Text.ParseI64 | src/main.rs:81 | a parsed value fits in 64 bits and comes from an optional sign followed by decimal digits |
| Text.ParseI64Total | src/main.rs:81 | conversely, every string of an optional sign and one or more digits parses, to its signed decimal value, exactly when that value fits in 64 bits |
| Text.ParsedIsLowerFixed | src/main.rs:81 | a string that parses as an integer is unchanged by lower-casing |
| Text.Split | src/bin/quiz.rs:401 | splitting gives at least one piece and no piece holds the separator |
| Text.JoinSplit | src/bin/quiz.rs:401 | joining the pieces of a split gives back the input |
| Text.SplitJoin | src/bin/quiz.rs:401 | splitting a join of separator-free pieces gives back the pieces |
| Text.Utf8Length | src/bin/quiz.rs:226 | the byte length is between one and four bytes per character |
| Quiz.TrimEach | src/bin/quiz.rs:402 | every piece is trimmed, in place |
| Quiz.ParseCommaList | src/bin/quiz.rs:401-404 | every item is non-empty, trimmed and free of commas |
| Quiz.ParseEmptyList | src/bin/quiz.rs:401-404 | the empty string lists nothing |
| Quiz.ParseJoinedList | src/bin/quiz.rs:582-585 | clean items joined by commas parse back to the same items, in order |
| Quiz.CleanCons | src/bin/quiz.rs:402-403 | trimming and dropping empties works piece by piece from the front |
| Quiz.ParseListCons | src/bin/quiz.rs:582-585 | the first piece comes first: the list keeps input order |
| Quiz.CheckSignup | src/bin/quiz.rs:222-228 | the checks pass exactly for a non-empty name and a password of at least 6 bytes; an empty name is reported before a short password |
| Quiz.PasswordLengthInBytes | src/bin/quiz.rs:226-228 | the bound counts bytes: "ééé" passes and "abcde" fails |
| Quiz.Signup | src/bin/quiz.rs:221-234 | failed checks, a failed hash and a taken name each leave the users untouched with their error; otherwise the new user is appended and written, or kept in memory when the write fails; unique names stay unique |
| Quiz.AddTags | src/bin/quiz.rs:410-412 | a run of tag additions keeps every file's id and owner |
| Quiz.AddTagsWritable | src/bin/quiz.rs:410-412 | when writes succeed and the file exists, the run succeeds, the file holds every tag, no tag is lost and no other file changes |
| Quiz.AddTagsMissingFile | src/bin/quiz.rs:410-412 | tagging a missing file fails at once with "file not found" and changes nothing |
| Quiz.AddTagsCons | src/bin/quiz.rs:411 | one step of the run is one `add_tag_to_file`, and its error ends the run |
| Quiz.AddFirstTag | src/bin/quiz.rs:411 | one loop turn performs the first remaining step of the run |
| Quiz.AddTagsInTurn | src/bin/quiz.rs:410-412 | the tag loop leaves the store and the outcome of AddTags; a refusing disk keeps its snapshot |
| Quiz.TagFile | src/bin/quiz.rs:397-419 | a missing file, then an empty tag list, are refused with nothing changed; otherwise the tags are added in turn |
| Quiz.TagFileTagsAll | src/bin/quiz.rs:406-412 | when writes succeed, a tagged file holds every parsed tag and loses none |
| Quiz.FoundIds | src/bin/quiz.rs:603-613 | an id is listed exactly when it names a file of the user |
| Quiz.MissingIds | src/bin/quiz.rs:603-613 | an id is listed exactly when it names no file of the user |
| Quiz.FoundMissingStep | src/bin/quiz.rs:603-613 | each id goes to exactly one of the two lists |
| Quiz.FoundMissingPartition | src/bin/quiz.rs:603-613 | found plus missing ids number exactly the ids |
| Quiz.FoundIdsSameKeys | src/bin/quiz.rs:605 | whether an id is found depends only on ids and owners, so tagging does not change it |
| Quiz.TagOneOfMany | src/bin/quiz.rs:605-612 | a missing id changes nothing; a found one gets the tag run; writes that succeed leave all tags on it |
| Quiz.BulkTagStep | src/bin/quiz.rs:603-613 | each turn keeps every earlier file's tags and adds all tags to the current one |
| Quiz.TallyCounts | src/bin/quiz.rs:609-611 | the counts stay equal to the found and missing ids seen so far |
| Quiz.TagRunStep | src/bin/quiz.rs:603-613 | a successful turn extends the run's invariant by one id |
| Quiz.TagRunFailed | src/bin/quiz.rs:607 | a failed write, which only a refusing disk causes, ends the run with ids and owners kept |
| Quiz.TagRunFinished | src/bin/quiz.rs:603-613 | after every id, the report partitions the ids |
| Quiz.TagNextListed | src/bin/quiz.rs:603-612 | one loop turn of `bulk_tag_files` |
| Quiz.TagListedFiles | src/bin/quiz.rs:600-613 | success count plus failed ids equals the ids; failed ids are exactly the missing ones; with writes succeeding every found file holds all tags |
| Quiz.BulkTagFiles | src/bin/quiz.rs:581-624 | an empty id list, then an empty tag list, are refused before any change; otherwise the ids are partitioned as above |
| Quiz.UntagVerdict | src/bin/quiz.rs:666-668 | the command fails exactly when nothing was removed and some file lacked the tag |
| Quiz.UntagOneOfMany | src/bin/quiz.rs:641-650 | a missing id changes nothing; a file lacking the tag is listed by name; one holding it loses it; only that file changes |
| Quiz.UntagStep | src/bin/quiz.rs:640-651 | each turn leaves the current file without the tag and keeps earlier ones so |
| Quiz.RecordCounts | src/bin/quiz.rs:644-649 | the counts stay equal to the found and missing ids seen so far |
| Quiz.UnseenStep | src/bin/quiz.rs:640-651 | a turn changes only the file of its own id, so files of ids not yet seen are as they were |
| Quiz.HeldTagStep | src/bin/quiz.rs:641-644 | after each turn, nothing removed so far holds exactly when no file seen so far held the tag at the start, even when an id repeats |
| Quiz.UntagRunStep | src/bin/quiz.rs:640-651 | a successful turn extends the run's invariant by one id |
| Quiz.UntagRunFailed | src/bin/quiz.rs:643 | a failed write, which only a refusing disk causes, ends the run with ids and owners kept |
| Quiz.UntagRunFinished | src/bin/quiz.rs:640-651 | after every id, the report partitions the ids |
| Quiz.UntagNextListed | src/bin/quiz.rs:640-651 | one loop turn of `bulk_untag_files` |
| Quiz.UntagListedFiles | src/bin/quiz.rs:636-651 | every id lands in exactly one of removed, lacking the tag, or missing; no found file keeps the tag; nothing is counted as removed exactly when no selected file held the tag at the start; only a refusing disk fails |
| Quiz.BulkUntagFiles | src/bin/quiz.rs:626-670 | an empty id list is refused with nothing changed; without a storage error each id is accounted for once, and the command fails exactly when some selected file exists and none of them held the tag |
| Quiz.NotificationMessage | src/bin/quiz.rs:468-472 | the message always starts with the book mark and a space |
| Quiz.IndexOf | src/bin/quiz.rs:468-472 | the first occurrence of a character, or None when it does not occur |
| Quiz.NotificationRoundTrip | src/bin/quiz.rs:468-472 | the title (without a line break) and the memo are read back from the message, so both formats are as stated |
| Quiz.NotificationNeverBlank | src/bin/quiz.rs:468-472 | the message is never blank, so `create_reminder` never refuses it as empty |

## Left out

- HTTP routing, server start-up, the reqwest calls, clap parsing, `println!` output and table rendering: these are transport and display.
- File I/O: loading JSON in the constructors and the `.session` file are left out. JSON writing is only a ghost snapshot plus the `diskWritable` flag, so every write in one run succeeds or fails alike.
- serde encoding itself is library behaviour. Only the `#[serde(default)]` reading of a missing tag list is modelled.
- Concurrency: the locks and the 10-second timer. Each store operation is one atomic step, and one pass of the loop is one call.
- Clock and UUIDs are parameters.
  - The source reads `Utc::now()` again in each query and in each `calculate_next_occurrence`. The model uses one reading per pass.
  - Id uniqueness is not enforced by the source. It is the precondition `UniqueIds` of the tick lemmas.
- chrono's RFC 3339 parsing of the due time is an `Option` parameter of `Service.ValidateRequest`.
- chrono's `Duration::minutes` and date addition can panic on overflow. The model uses unbounded integers and does not model the panic.
- Text.Lower: only ASCII letters are lower-cased. Rust's full Unicode `to_lowercase` is not modelled.
- bcrypt hashing is a parameter of `Quiz.Signup`: `None` when hashing fails.
- `login`, `logout`, `upload_file`, `list_files`, `untag_file` and `filter_files_by_tag` are left out of the quiz tool. They are store calls and printing around the modelled operations.
- Also left out: the float KB size, the display slices `&content[..200]` and `&id[..8]`, and the `create_notification` HTTP call.
- The `Err` arm of the due query in `notification_service` is left out because the query never fails.
- `bulk_untag_files` does not trim its tag argument, and the model keeps it untrimmed.
- Storage.ReminderStorage.GetAllReminders, Storage.ReminderStorage.GetDueReminders: the whole list and Due over it, read from the store. Their contracts are those of the list and of Due, so they have no rows of their own.
- UserStore.UserStorage.GetUserByUsername, UserStore.UserStorage.GetUserFiles, UserStore.UserStorage.GetFileById: these are the functions FindUser, FilesOf and FindFile read from the store. Their rows are under those names.
- Quiz.TagListedFiles, Quiz.BulkTagFiles: when the disk refuses writes, the source stops at the first failed write. The model then states only that ids and owners are kept, not which files were already tagged.
