/**
 * The decision logic of the quiz command-line tool (src/bin/quiz.rs): comma
 * lists, the sign-up checks, tagging one file or many, and the text of a
 * study notification. Printing, the session file and the HTTP calls are not
 * modelled; the store is the UserStorage model.
 */
module Quiz {
  import opened Wrappers
  import opened Text
  import opened Filtering
  import opened UserModels
  import opened UserStore

  /** The logged-in user, as the session file records it. */
  datatype Session = Session(userId: string, username: string)

  /** The errors the commands modelled here end with. */
  datatype CliError =
    | EmptyUsername
    | PasswordTooShort
    | HashFailed
    | FileNotFoundWithId(fileId: string)
    | NoValidTags
    | NoValidFileIds
    | TagNotFoundOnAny(tag: string)
    | Storage(cause: StoreError)

  // ---------------------------------------------------------------------------
  // Comma lists (`split(',').map(|s| s.trim().to_string()).filter(|s| !s.is_empty())`)

  function TrimEach(parts: seq<string>): (r: seq<string>)
    ensures |r| == |parts| && forall i :: 0 <= i < |parts| ==> r[i] == Trim(parts[i])
    decreases |parts|
  {
    if parts == [] then [] else [Trim(parts[0])] + TrimEach(parts[1..])
  }

  /** Trimmed pieces of comma-free pieces are comma-free and already trimmed. */
  lemma TrimEachClean(parts: seq<string>)
    requires forall p :: p in parts ==> ',' !in p
    ensures forall x :: x in TrimEach(parts) ==> ',' !in x && Trim(x) == x
  {
    forall x | x in TrimEach(parts) ensures ',' !in x && Trim(x) == x {
      var i :| 0 <= i < |parts| && TrimEach(parts)[i] == x;
      TrimSubstring(parts[i]);
      TrimIdempotent(parts[i]);
    }
  }

  /** Pieces that are already trimmed come back unchanged. */
  lemma TrimEachFixed(parts: seq<string>)
    requires forall p :: p in parts ==> Trim(p) == p
    ensures TrimEach(parts) == parts
  {
    assert forall i :: 0 <= i < |parts| ==> TrimEach(parts)[i] == parts[i];
  }

  predicate NonEmpty(x: string) {
    x != []
  }

  /** A comma-separated list: the pieces, trimmed, without the empty ones, in input order. */
  function ParseCommaList(s: string): (items: seq<string>)
    ensures forall x :: x in items ==> x != [] && ',' !in x && Trim(x) == x
  {
    var parts := Split(s, ',');
    TrimEachClean(parts);
    Filter(TrimEach(parts), NonEmpty)
  }

  /** The empty string lists nothing. */
  lemma ParseEmptyList()
    ensures ParseCommaList("") == []
  {
    assert Split("", ',') == [""];
    assert TrimEach([""]) == [""];
    assert Filter([""], NonEmpty) == Filter([], NonEmpty) + [];
  }

  /** Joining clean items with commas and parsing the result gives the items back. */
  lemma ParseJoinedList(items: seq<string>)
    requires items != []
    requires forall x :: x in items ==> x != [] && ',' !in x && Trim(x) == x
    ensures ParseCommaList(Join(items, ',')) == items
  {
    SplitJoin(items, ',');
    TrimEachFixed(items);
    FilterAll(items, NonEmpty);
  }

  /** Trimming and dropping empties works piece by piece, front first. */
  lemma CleanCons(p: string, rest: seq<string>)
    ensures Filter(TrimEach([p] + rest), NonEmpty)
         == (if Trim(p) == [] then [] else [Trim(p)]) + Filter(TrimEach(rest), NonEmpty)
  {
    var head := [Trim(p)];
    assert ([p] + rest)[1..] == rest;
    assert TrimEach([p] + rest) == head + TrimEach(rest);
    assert Filter(head, NonEmpty) == (if Trim(p) == [] then [] else [Trim(p)]) by {
      assert head[..0] == [];
    }
    FilterAppend(head, TrimEach(rest), NonEmpty);
  }

  /** The first piece comes first: parsing is piecewise and keeps the input order. */
  lemma ParseListCons(a: string, b: string)
    requires ',' !in a
    ensures ParseCommaList(a + [','] + b) == (if Trim(a) == [] then [] else [Trim(a)]) + ParseCommaList(b)
  {
    SplitAtSeparator(a, b, ',');
    CleanCons(a, Split(b, ','));
  }

  // ---------------------------------------------------------------------------
  // Sign-up

  /** The checks of `signup` before hashing: a name, and a password of at least 6 bytes. */
  function CheckSignup(username: string, password: string): (res: Outcome<CliError>)
    ensures res.Pass? <==> username != [] && Utf8Length(password) >= 6
    ensures username == [] ==> res == Fail(EmptyUsername)
    ensures username != [] && Utf8Length(password) < 6 ==> res == Fail(PasswordTooShort)
  {
    if username == [] then Fail(EmptyUsername)
    else if Utf8Length(password) < 6 then Fail(PasswordTooShort)
    else Pass
  }

  /** The bound counts bytes, not characters: three two-byte letters are long enough, five ASCII ones are not. */
  lemma PasswordLengthInBytes()
    ensures CheckSignup("u", "ééé") == Pass
    ensures CheckSignup("u", "abcde") == Fail(PasswordTooShort)
  {
    assert Utf8Length("ééé") == 6 by {
      assert Utf8Width('é') == 2;
      assert "ééé"[1..] == "éé";
      assert "éé"[1..] == "é";
    }
    assert Utf8Length("abcde") == 5 by {
      assert "abcde"[1..] == "bcde";
      assert "bcde"[1..] == "cde";
      assert "cde"[1..] == "de";
      assert "de"[1..] == "e";
    }
  }

  /**
   * `signup`: check the inputs, hash the password (the bcrypt result is the
   * parameter `passwordHash`, None when hashing fails), then create the user.
   */
  method Signup(store: UserStorage, username: string, password: string, passwordHash: Option<string>,
                id: string, now: int)
    returns (res: Outcome<CliError>)
    modifies store`users, store`savedUsers
    ensures CheckSignup(username, password).Fail? ==>
              res == CheckSignup(username, password) && store.users == old(store.users)
              && store.savedUsers == old(store.savedUsers)
    ensures CheckSignup(username, password).Pass? && passwordHash.None? ==>
              res == Fail(HashFailed) && store.users == old(store.users) && store.savedUsers == old(store.savedUsers)
    ensures CheckSignup(username, password).Pass? && passwordHash.Some? && HasUsername(old(store.users), username) ==>
              res == Fail(Storage(UsernameTaken)) && store.users == old(store.users)
              && store.savedUsers == old(store.savedUsers)
    ensures CheckSignup(username, password).Pass? && passwordHash.Some? && !HasUsername(old(store.users), username) ==>
              && store.users == old(store.users) + [NewUser(id, username, passwordHash.value, now)]
              && res == (if store.diskWritable then Pass else Fail(Storage(PersistenceFailed)))
              && store.savedUsers == (if store.diskWritable then store.users else old(store.savedUsers))
    ensures UniqueUsernames(old(store.users)) ==> UniqueUsernames(store.users)
  {
    var checked := CheckSignup(username, password);
    if checked.Fail? {
      return checked;
    }
    if passwordHash.None? {
      return Fail(HashFailed);
    }
    var user := NewUser(id, username, passwordHash.value, now);
    var created := store.CreateUser(user);
    res := if created.Ok? then Pass else Fail(Storage(created.error));
  }

  // ---------------------------------------------------------------------------
  // Adding a list of tags to one file (`for tag in &tag_list { add_tag_to_file(..)?; }`)

  /** The file list and the outcome of a run of tag additions. */
  datatype Tagging = Tagging(files: seq<UploadedFile>, outcome: Outcome<StoreError>)

  /** Add the tags in turn; the first failed call ends the run with its error. */
  function AddTags(files: seq<UploadedFile>, fileId: string, userId: string, tags: seq<string>, writable: bool)
    : (t: Tagging)
    ensures SameKeys(files, t.files)
    decreases |tags|
  {
    if tags == [] then Tagging(files, Pass)
    else
      var next := TagAdded(files, fileId, userId, tags[0]);
      var step := AddTagOutcome(files, fileId, userId, tags[0], writable);
      if step.Fail? then Tagging(next, step)
      else
        var t := AddTags(next, fileId, userId, tags[1..], writable);
        SameKeysTransitive(files, next, t.files);
        t
  }

  lemma SameKeysTransitive(a: seq<UploadedFile>, b: seq<UploadedFile>, c: seq<UploadedFile>)
    requires SameKeys(a, b) && SameKeys(b, c)
    ensures SameKeys(a, c)
  {
  }

  /** No tag is lost: every file keeps the tags it had, in order, with any new ones after them. */
  predicate TagsGrow(a: seq<UploadedFile>, b: seq<UploadedFile>) {
    SameKeys(a, b) && forall k :: 0 <= k < |a| ==> a[k].tags <= b[k].tags
  }

  lemma TagsGrowTransitive(a: seq<UploadedFile>, b: seq<UploadedFile>, c: seq<UploadedFile>)
    requires TagsGrow(a, b) && TagsGrow(b, c)
    ensures TagsGrow(a, c)
  {
    forall k | 0 <= k < |a| ensures a[k].tags <= c[k].tags {
      assert a[k].tags == b[k].tags[..|a[k].tags|];
      assert b[k].tags[..|a[k].tags|] == c[k].tags[..|b[k].tags|][..|a[k].tags|];
    }
  }

  /** Every tag of `tagList` is among `tags`. */
  predicate HasAll(tags: seq<string>, tagList: seq<string>) {
    forall tag :: tag in tagList ==> tag in tags
  }

  /** A list that a longer one starts with has no tag the longer one lacks. */
  lemma HasAllPrefix(tags: seq<string>, longer: seq<string>, tagList: seq<string>)
    requires HasAll(tags, tagList) && tags <= longer
    ensures HasAll(longer, tagList)
  {
    forall tag | tag in tagList ensures tag in longer {
      var j :| 0 <= j < |tags| && tags[j] == tag;
      assert longer[j] == tag;
    }
  }

  /**
   * When writes succeed and the file exists, the run succeeds, the file holds
   * every tag, no file loses a tag and no other file changes.
   */
  lemma {:induction false} AddTagsWritable(files: seq<UploadedFile>, fileId: string, userId: string,
                                           tags: seq<string>, k: nat)
    requires FindFileIndex(files, fileId, userId) == Some(k)
    ensures var t := AddTags(files, fileId, userId, tags, true);
            && t.outcome == Pass
            && HasAll(t.files[k].tags, tags)
            && TagsGrow(files, t.files)
            && forall j :: 0 <= j < |files| && j != k ==> t.files[j] == files[j]
    decreases |tags|
  {
    if tags != [] {
      var next := TagAdded(files, fileId, userId, tags[0]);
      FindFileIndexSameKeys(files, next, fileId, userId);
      AddTagsWritable(next, fileId, userId, tags[1..], k);
      var t := AddTags(files, fileId, userId, tags, true);
      assert t == AddTags(next, fileId, userId, tags[1..], true);
      assert TagsGrow(files, next);
      TagsGrowTransitive(files, next, t.files);
      assert tags[0] in t.files[k].tags by {
        assert tags[0] in next[k].tags;
        HasAllPrefix(next[k].tags, t.files[k].tags, [tags[0]]);
      }
      forall tag | tag in tags ensures tag in t.files[k].tags {
        if tag != tags[0] {
          assert tag in tags[1..];
        }
      }
    }
  }

  /** Tagging a file that is not there fails at once and changes nothing. */
  lemma AddTagsMissingFile(files: seq<UploadedFile>, fileId: string, userId: string, tags: seq<string>, writable: bool)
    requires FindFileIndex(files, fileId, userId).None? && tags != []
    ensures AddTags(files, fileId, userId, tags, writable) == Tagging(files, Fail(FileNotFound))
  {
  }

  /**
   * The tag loop shared by `tag_file` and `bulk_tag_files`. A disk that
   * refuses writes keeps what it had; one that takes them keeps mirroring
   * the list.
   */
  method AddTagsInTurn(store: UserStorage, fileId: string, userId: string, tags: seq<string>)
    returns (res: Outcome<StoreError>)
    modifies store`files, store`savedFiles
    ensures store.files == AddTags(old(store.files), fileId, userId, tags, store.diskWritable).files
    ensures res == AddTags(old(store.files), fileId, userId, tags, store.diskWritable).outcome
    ensures !store.diskWritable ==> store.savedFiles == old(store.savedFiles)
    ensures store.diskWritable && old(store.savedFiles) == old(store.files) ==> store.savedFiles == store.files
  {
    ghost var goal := AddTags(store.files, fileId, userId, tags, store.diskWritable);
    ghost var synced := store.diskWritable && store.savedFiles == store.files;
    var i := 0;
    while i < |tags|
      invariant 0 <= i <= |tags|
      invariant AddTags(store.files, fileId, userId, tags[i..], store.diskWritable) == goal
      invariant !store.diskWritable ==> store.savedFiles == old(store.savedFiles)
      invariant synced ==> store.savedFiles == store.files
    {
      var rest := tags[i..];
      var step := AddFirstTag(store, fileId, userId, rest);
      if step.Fail? {
        return step;
      }
      assert AddTags(store.files, fileId, userId, rest[1..], store.diskWritable) == goal;
      assert rest[1..] == tags[i + 1..];
      i := i + 1;
    }
    assert tags[i..] == [];
    res := Pass;
  }

  /** One turn of the tag loop: `add_tag_to_file` with the first of the remaining tags. */
  method AddFirstTag(store: UserStorage, fileId: string, userId: string, rest: seq<string>)
    returns (step: Outcome<StoreError>)
    requires rest != []
    modifies store`files, store`savedFiles
    ensures step.Fail? ==> AddTags(old(store.files), fileId, userId, rest, store.diskWritable) == Tagging(store.files, step)
    ensures step.Pass? ==>
              AddTags(old(store.files), fileId, userId, rest, store.diskWritable)
              == AddTags(store.files, fileId, userId, rest[1..], store.diskWritable)
    ensures !store.diskWritable ==> store.savedFiles == old(store.savedFiles)
    ensures store.diskWritable && old(store.savedFiles) == old(store.files) ==> store.savedFiles == store.files
  {
    AddTagsCons(store.files, fileId, userId, rest, store.diskWritable);
    step := store.AddTagToFile(fileId, userId, rest[0]);
  }

  /** One step of a run of tag additions. */
  lemma AddTagsCons(files: seq<UploadedFile>, fileId: string, userId: string, tags: seq<string>, writable: bool)
    requires tags != []
    ensures var step := AddTagOutcome(files, fileId, userId, tags[0], writable);
            AddTags(files, fileId, userId, tags, writable)
            == if step.Fail? then Tagging(TagAdded(files, fileId, userId, tags[0]), step)
               else AddTags(TagAdded(files, fileId, userId, tags[0]), fileId, userId, tags[1..], writable)
  {
  }

  /**
   * `tag_file`: the file must exist under the session's user and at least one
   * tag must survive parsing; then the tags are added in turn.
   */
  method TagFile(store: UserStorage, session: Session, fileId: string, tags: string)
    returns (res: Outcome<CliError>)
    modifies store`files, store`savedFiles
    ensures FindFileIndex(old(store.files), fileId, session.userId).None? ==>
              res == Fail(FileNotFoundWithId(fileId)) && store.files == old(store.files)
    ensures FindFileIndex(old(store.files), fileId, session.userId).Some? && ParseCommaList(tags) == [] ==>
              res == Fail(NoValidTags) && store.files == old(store.files)
    ensures FindFileIndex(old(store.files), fileId, session.userId).Some? && ParseCommaList(tags) != [] ==>
              var t := AddTags(old(store.files), fileId, session.userId, ParseCommaList(tags), store.diskWritable);
              store.files == t.files && res == (if t.outcome.Pass? then Pass else Fail(Storage(t.outcome.error)))
    ensures !store.diskWritable ==> store.savedFiles == old(store.savedFiles)
    ensures store.diskWritable && old(store.savedFiles) == old(store.files) ==> store.savedFiles == store.files
  {
    var file := store.GetFileById(fileId, session.userId);
    if file.None? {
      return Fail(FileNotFoundWithId(fileId));
    }
    var tagList := ParseCommaList(tags);
    if tagList == [] {
      return Fail(NoValidTags);
    }
    var added := AddTagsInTurn(store, fileId, session.userId, tagList);
    res := if added.Pass? then Pass else Fail(Storage(added.error));
  }

  /** With writes succeeding, a successful `tag_file` leaves every parsed tag on the file. */
  lemma TagFileTagsAll(files: seq<UploadedFile>, fileId: string, userId: string, tags: string, k: nat)
    requires FindFileIndex(files, fileId, userId) == Some(k)
    ensures var t := AddTags(files, fileId, userId, ParseCommaList(tags), true);
            t.outcome == Pass && HasAll(t.files[k].tags, ParseCommaList(tags)) && TagsGrow(files, t.files)
  {
    AddTagsWritable(files, fileId, userId, ParseCommaList(tags), k);
  }

  // ---------------------------------------------------------------------------
  // Bulk tagging

  /** The ids among `ids` that name a file owned by `userId`, in order. */
  function FoundIds(files: seq<UploadedFile>, ids: seq<string>, userId: string): (r: seq<string>)
    ensures forall id :: id in r <==> id in ids && FindFileIndex(files, id, userId).Some?
    decreases |ids|
  {
    if ids == [] then []
    else
      var init, last := ids[..|ids| - 1], ids[|ids| - 1];
      assert ids == init + [last];
      FoundIds(files, init, userId) + (if FindFileIndex(files, last, userId).Some? then [last] else [])
  }

  /** The ids among `ids` that name no file owned by `userId`, in order. */
  function MissingIds(files: seq<UploadedFile>, ids: seq<string>, userId: string): (r: seq<string>)
    ensures forall id :: id in r <==> id in ids && FindFileIndex(files, id, userId).None?
    decreases |ids|
  {
    if ids == [] then []
    else
      var init, last := ids[..|ids| - 1], ids[|ids| - 1];
      assert ids == init + [last];
      MissingIds(files, init, userId) + (if FindFileIndex(files, last, userId).None? then [last] else [])
  }

  /** Looking at one more id of the list adds it to exactly one of the two lists. */
  lemma FoundMissingStep(files: seq<UploadedFile>, ids: seq<string>, i: nat, userId: string)
    requires i < |ids|
    ensures FoundIds(files, ids[..i + 1], userId)
         == FoundIds(files, ids[..i], userId) + (if FindFileIndex(files, ids[i], userId).Some? then [ids[i]] else [])
    ensures MissingIds(files, ids[..i + 1], userId)
         == MissingIds(files, ids[..i], userId) + (if FindFileIndex(files, ids[i], userId).None? then [ids[i]] else [])
  {
    assert ids[..i + 1][..i] == ids[..i];
  }

  /** Every id is either found or missing. */
  lemma {:induction false} FoundMissingPartition(files: seq<UploadedFile>, ids: seq<string>, userId: string)
    ensures |FoundIds(files, ids, userId)| + |MissingIds(files, ids, userId)| == |ids|
    decreases |ids|
  {
    if ids != [] {
      FoundMissingPartition(files, ids[..|ids| - 1], userId);
    }
  }

  /** Whether an id is found depends only on ids and owners. */
  lemma {:induction false} FoundIdsSameKeys(a: seq<UploadedFile>, b: seq<UploadedFile>, ids: seq<string>, userId: string)
    requires SameKeys(a, b)
    ensures FoundIds(a, ids, userId) == FoundIds(b, ids, userId)
    ensures MissingIds(a, ids, userId) == MissingIds(b, ids, userId)
    decreases |ids|
  {
    if ids != [] {
      FoundIdsSameKeys(a, b, ids[..|ids| - 1], userId);
      FindFileIndexSameKeys(a, b, ids[|ids| - 1], userId);
    }
  }

  /** What `bulk_tag_files` counts and lists. */
  datatype BulkTagReport = BulkTagReport(successCount: nat, failedFiles: seq<string>)

  /** Every id of `ids` that names a file of `userId` in `before` names, in `after`, a file holding every tag of `tagList`. */
  predicate TaggedFound(before: seq<UploadedFile>, after: seq<UploadedFile>, ids: seq<string>, tagList: seq<string>,
                        userId: string)
    requires SameKeys(before, after)
  {
    forall id :: id in ids && FindFileIndex(before, id, userId).Some? ==>
                 HasAll(after[FindFileIndex(before, id, userId).value].tags, tagList)
  }

  /**
   * One turn of the `bulk_tag_files` loop: a file that is there gets every
   * tag in turn, one that is not is left alone.
   */
  method TagOneOfMany(store: UserStorage, id: string, userId: string, tagList: seq<string>)
    returns (found: bool, res: Outcome<StoreError>)
    modifies store`files, store`savedFiles
    ensures found <==> FindFileIndex(old(store.files), id, userId).Some?
    ensures !found ==> res == Pass && store.files == old(store.files) && store.savedFiles == old(store.savedFiles)
    ensures found ==> store.files == AddTags(old(store.files), id, userId, tagList, store.diskWritable).files
                      && res == AddTags(old(store.files), id, userId, tagList, store.diskWritable).outcome
    ensures SameKeys(old(store.files), store.files)
    ensures store.diskWritable ==> res == Pass && TagsGrow(old(store.files), store.files)
    ensures store.diskWritable && found ==>
              HasAll(store.files[FindFileIndex(old(store.files), id, userId).value].tags, tagList)
    ensures !store.diskWritable ==> store.savedFiles == old(store.savedFiles)
    ensures store.diskWritable && old(store.savedFiles) == old(store.files) ==> store.savedFiles == store.files
  {
    var file := store.GetFileById(id, userId);
    found := file.Some?;
    if !found {
      return found, Pass;
    }
    if store.diskWritable {
      AddTagsWritable(store.files, id, userId, tagList, FindFileIndex(store.files, id, userId).value);
    }
    res := AddTagsInTurn(store, id, userId, tagList);
  }

  /** One bulk-tag turn keeps the earlier files tagged and adds the current one. */
  lemma BulkTagStep(before: seq<UploadedFile>, current: seq<UploadedFile>, after: seq<UploadedFile>,
                    ids: seq<string>, i: nat, tagList: seq<string>, userId: string)
    requires i < |ids|
    requires SameKeys(before, current) && TagsGrow(before, current) && TagsGrow(current, after)
    requires TaggedFound(before, current, ids[..i], tagList, userId)
    requires FindFileIndex(current, ids[i], userId).Some? ==>
               HasAll(after[FindFileIndex(current, ids[i], userId).value].tags, tagList)
    ensures TagsGrow(before, after)
    ensures TaggedFound(before, after, ids[..i + 1], tagList, userId)
  {
    FindFileIndexSameKeys(before, current, ids[i], userId);
    TagsGrowTransitive(before, current, after);
    forall id | id in ids[..i + 1] && FindFileIndex(before, id, userId).Some?
      ensures HasAll(after[FindFileIndex(before, id, userId).value].tags, tagList)
    {
      var k := FindFileIndex(before, id, userId).value;
      if id != ids[i] {
        assert id in ids[..i] by {
          assert ids[..i + 1] == ids[..i] + [ids[i]];
        }
        HasAllPrefix(current[k].tags, after[k].tags, tagList);
      }
    }
  }

  /** The report after one turn of the `bulk_tag_files` loop. */
  function Tally(report: BulkTagReport, found: bool, id: string): BulkTagReport {
    if found then report.(successCount := report.successCount + 1)
    else report.(failedFiles := report.failedFiles + [id])
  }

  /** One turn keeps the report's counts in step with the ids seen so far. */
  lemma TallyCounts(report: BulkTagReport, found: bool, before: seq<UploadedFile>, ids: seq<string>, i: nat,
                    userId: string)
    requires i < |ids|
    requires report.failedFiles == MissingIds(before, ids[..i], userId)
    requires report.successCount == |FoundIds(before, ids[..i], userId)|
    requires found <==> FindFileIndex(before, ids[i], userId).Some?
    ensures Tally(report, found, ids[i]).failedFiles == MissingIds(before, ids[..i + 1], userId)
    ensures Tally(report, found, ids[i]).successCount == |FoundIds(before, ids[..i + 1], userId)|
  {
    FoundMissingStep(before, ids, i, userId);
  }

  /**
   * What holds after the first `i` ids of a `bulk_tag_files` run: the
   * store keeps its files, the report counts exactly the ids seen so far,
   * and, while the disk accepts writes, every file seen has all the tags.
   */
  predicate TagRunSoFar(before: seq<UploadedFile>, files: seq<UploadedFile>, ids: seq<string>, i: nat,
                        tagList: seq<string>, userId: string, report: BulkTagReport, writable: bool)
  {
    && i <= |ids|
    && SameKeys(before, files)
    && report.failedFiles == MissingIds(before, ids[..i], userId)
    && report.successCount == |FoundIds(before, ids[..i], userId)|
    && (writable ==> TagsGrow(before, files) && TaggedFound(before, files, ids[..i], tagList, userId))
  }

  /** What a whole run promises: the report of every id, and every found file tagged when writes succeed. */
  predicate TagRunDone(before: seq<UploadedFile>, after: seq<UploadedFile>, ids: seq<string>, tagList: seq<string>,
                       userId: string, report: BulkTagReport, res: Outcome<StoreError>, writable: bool)
  {
    && SameKeys(before, after)
    && (res.Pass? ==>
          && report.successCount + |report.failedFiles| == |ids|
          && report.failedFiles == MissingIds(before, ids, userId)
          && report.successCount == |FoundIds(before, ids, userId)|)
    && (writable ==>
          && res.Pass?
          && TagsGrow(before, after)
          && TaggedFound(before, after, ids, tagList, userId))
  }

  /** One successful turn extends the run by one id. */
  lemma TagRunStep(before: seq<UploadedFile>, current: seq<UploadedFile>, after: seq<UploadedFile>,
                   ids: seq<string>, i: nat, tagList: seq<string>, userId: string, report: BulkTagReport,
                   writable: bool, found: bool)
    requires i < |ids|
    requires TagRunSoFar(before, current, ids, i, tagList, userId, report, writable)
    requires found <==> FindFileIndex(current, ids[i], userId).Some?
    requires SameKeys(current, after)
    requires writable ==> TagsGrow(current, after)
    requires writable && found ==> HasAll(after[FindFileIndex(current, ids[i], userId).value].tags, tagList)
    ensures TagRunSoFar(before, after, ids, i + 1, tagList, userId, Tally(report, found, ids[i]), writable)
  {
    FindFileIndexSameKeys(before, current, ids[i], userId);
    SameKeysTransitive(before, current, after);
    TallyCounts(report, found, before, ids, i, userId);
    if writable {
      BulkTagStep(before, current, after, ids, i, tagList, userId);
    }
  }

  /** A failed write, which only happens on a read-only disk, ends the run with the store's files in place. */
  lemma TagRunFailed(before: seq<UploadedFile>, current: seq<UploadedFile>, after: seq<UploadedFile>,
                     ids: seq<string>, i: nat, tagList: seq<string>, userId: string, report: BulkTagReport,
                     writable: bool, res: Outcome<StoreError>)
    requires TagRunSoFar(before, current, ids, i, tagList, userId, report, writable)
    requires SameKeys(current, after)
    requires res.Fail? && !writable
    ensures TagRunDone(before, after, ids, tagList, userId, report, res, writable)
  {
    SameKeysTransitive(before, current, after);
  }

  /** Having seen every id, the run is complete. */
  lemma TagRunFinished(before: seq<UploadedFile>, after: seq<UploadedFile>, ids: seq<string>,
                       tagList: seq<string>, userId: string, report: BulkTagReport, writable: bool)
    requires TagRunSoFar(before, after, ids, |ids|, tagList, userId, report, writable)
    ensures TagRunDone(before, after, ids, tagList, userId, report, Pass, writable)
  {
    assert ids[..|ids|] == ids;
    FoundMissingPartition(before, ids, userId);
  }

  /** One turn of the `bulk_tag_files` loop, on the `i`th id, with the report updated. */
  method TagNextListed(store: UserStorage, ids: seq<string>, i: nat, userId: string, tagList: seq<string>,
                       ghost before: seq<UploadedFile>, report: BulkTagReport)
    returns (next: BulkTagReport, res: Outcome<StoreError>)
    requires i < |ids|
    requires TagRunSoFar(before, store.files, ids, i, tagList, userId, report, store.diskWritable)
    modifies store`files, store`savedFiles
    ensures res.Pass? ==> TagRunSoFar(before, store.files, ids, i + 1, tagList, userId, next, store.diskWritable)
    ensures res.Fail? ==>
              next == report && TagRunDone(before, store.files, ids, tagList, userId, next, res, store.diskWritable)
    ensures !store.diskWritable ==> store.savedFiles == old(store.savedFiles)
    ensures store.diskWritable && old(store.savedFiles) == old(store.files) ==> store.savedFiles == store.files
  {
    ghost var current := store.files;
    var found;
    found, res := TagOneOfMany(store, ids[i], userId, tagList);
    if res.Fail? {
      TagRunFailed(before, current, store.files, ids, i, tagList, userId, report, store.diskWritable, res);
      return report, res;
    }
    TagRunStep(before, current, store.files, ids, i, tagList, userId, report, store.diskWritable, found);
    next := Tally(report, found, ids[i]);
  }

  /**
   * The loop of `bulk_tag_files`: every id is either tagged with all the
   * tags and counted, or listed as not found; a failed write ends the loop.
   */
  method TagListedFiles(store: UserStorage, ids: seq<string>, userId: string, tagList: seq<string>)
    returns (report: BulkTagReport, res: Outcome<StoreError>)
    modifies store`files, store`savedFiles
    ensures SameKeys(old(store.files), store.files)
    ensures res.Pass? ==>
              && report.successCount + |report.failedFiles| == |ids|
              && report.failedFiles == MissingIds(old(store.files), ids, userId)
              && report.successCount == |FoundIds(old(store.files), ids, userId)|
    ensures store.diskWritable ==>
              && res.Pass?
              && TagsGrow(old(store.files), store.files)
              && TaggedFound(old(store.files), store.files, ids, tagList, userId)
    ensures !store.diskWritable ==> store.savedFiles == old(store.savedFiles)
    ensures store.diskWritable && old(store.savedFiles) == old(store.files) ==> store.savedFiles == store.files
  {
    report := BulkTagReport(0, []);
    ghost var before := store.files;
    var i := 0;
    while i < |ids|
      invariant TagRunSoFar(before, store.files, ids, i, tagList, userId, report, store.diskWritable)
      invariant !store.diskWritable ==> store.savedFiles == old(store.savedFiles)
      invariant store.diskWritable && old(store.savedFiles) == old(store.files) ==> store.savedFiles == store.files
    {
      report, res := TagNextListed(store, ids, i, userId, tagList, before, report);
      if res.Fail? {
        return;
      }
      i := i + 1;
    }
    TagRunFinished(before, store.files, ids, tagList, userId, report, store.diskWritable);
    res := Pass;
  }

  /**
   * `bulk_tag_files`: both lists must be non-empty before the store is
   * touched; then the listed files are tagged in turn.
   */
  method BulkTagFiles(store: UserStorage, session: Session, fileIds: string, tags: string)
    returns (report: BulkTagReport, res: Outcome<CliError>)
    modifies store`files, store`savedFiles
    ensures SameKeys(old(store.files), store.files)
    ensures ParseCommaList(fileIds) == [] ==> res == Fail(NoValidFileIds) && store.files == old(store.files)
    ensures ParseCommaList(fileIds) != [] && ParseCommaList(tags) == [] ==>
              res == Fail(NoValidTags) && store.files == old(store.files)
    ensures res.Pass? ==>
              var ids := ParseCommaList(fileIds);
              && report.successCount + |report.failedFiles| == |ids|
              && report.failedFiles == MissingIds(old(store.files), ids, session.userId)
              && report.successCount == |FoundIds(old(store.files), ids, session.userId)|
    ensures ParseCommaList(fileIds) != [] && ParseCommaList(tags) != [] && store.diskWritable ==>
              && res.Pass?
              && TagsGrow(old(store.files), store.files)
              && TaggedFound(old(store.files), store.files, ParseCommaList(fileIds), ParseCommaList(tags), session.userId)
    ensures !store.diskWritable ==> store.savedFiles == old(store.savedFiles)
    ensures store.diskWritable && old(store.savedFiles) == old(store.files) ==> store.savedFiles == store.files
  {
    report := BulkTagReport(0, []);
    var ids := ParseCommaList(fileIds);
    var tagList := ParseCommaList(tags);
    if ids == [] {
      return report, Fail(NoValidFileIds);
    }
    if tagList == [] {
      return report, Fail(NoValidTags);
    }
    var tagged;
    report, tagged := TagListedFiles(store, ids, session.userId, tagList);
    res := if tagged.Pass? then Pass else Fail(Storage(tagged.error));
  }

  // ---------------------------------------------------------------------------
  // Bulk untagging

  /** What `bulk_untag_files` counts and lists: the files that lacked the tag are listed by name. */
  datatype BulkUntagReport = BulkUntagReport(successCount: nat, failedFiles: seq<string>, tagNotFound: seq<string>)

  /** How the command ends once the loop has run: an error exactly when nothing was removed but some file lacked the tag. */
  function UntagVerdict(report: BulkUntagReport, tag: string): (res: Outcome<CliError>)
    ensures res.Fail? <==> report.successCount == 0 && report.tagNotFound != []
  {
    if report.successCount == 0 && report.tagNotFound != [] then Fail(TagNotFoundOnAny(tag)) else Pass
  }

  /** Every id of `ids` that names a file of `userId` in `before` names, in `after`, a file without `tag`. */
  predicate UntaggedFound(before: seq<UploadedFile>, after: seq<UploadedFile>, ids: seq<string>, tag: string,
                          userId: string)
    requires SameKeys(before, after)
  {
    forall id :: id in ids && FindFileIndex(before, id, userId).Some? ==>
                 tag !in after[FindFileIndex(before, id, userId).value].tags
  }

  /** No id of `ids` names, in `before`, a file of `userId` that holds `tag`. */
  predicate NoneHeldTag(before: seq<UploadedFile>, ids: seq<string>, tag: string, userId: string) {
    forall id :: id in ids && FindFileIndex(before, id, userId).Some? ==>
                 tag !in before[FindFileIndex(before, id, userId).value].tags
  }

  /** Every file whose id has not been seen yet is as it was in `before`. */
  predicate UnseenUntouched(before: seq<UploadedFile>, files: seq<UploadedFile>, seen: seq<string>)
    requires SameKeys(before, files)
  {
    forall k :: 0 <= k < |before| && before[k].id !in seen ==> files[k] == before[k]
  }

  /** `b` is `a` with at most the file at index `k` changed, ids and owners kept. */
  predicate OnlyChanged(a: seq<UploadedFile>, b: seq<UploadedFile>, k: Option<nat>) {
    SameKeys(a, b) && forall j :: 0 <= j < |a| && (k.None? || j != k.value) ==> b[j] == a[j]
  }

  /** How one turn of the `bulk_untag_files` loop classified its id. */
  datatype UntagTurn = Untagged | Lacking(filename: string) | Missing

  /**
   * One turn of the `bulk_untag_files` loop: a file holding the tag loses
   * it, a file without it is reported by name, a missing id is reported.
   */
  method UntagOneOfMany(store: UserStorage, id: string, userId: string, tag: string)
    returns (turn: UntagTurn, res: Outcome<StoreError>)
    modifies store`files, store`savedFiles
    ensures FindFileIndex(old(store.files), id, userId).None? ==>
              turn == Missing && res == Pass && store.files == old(store.files)
    ensures FindFileIndex(old(store.files), id, userId).Some? ==>
              var k := FindFileIndex(old(store.files), id, userId).value;
              && k < |store.files| && tag !in store.files[k].tags
              && (tag in old(store.files)[k].tags ==>
                    && turn == Untagged && store.files == TagRemoved(old(store.files), id, userId, tag)
                    && res == (if store.diskWritable then Pass else Fail(PersistenceFailed)))
              && (tag !in old(store.files)[k].tags ==>
                    turn == Lacking(old(store.files)[k].filename) && res == Pass && store.files == old(store.files))
    ensures OnlyChanged(old(store.files), store.files, FindFileIndex(old(store.files), id, userId))
    ensures !store.diskWritable ==> store.savedFiles == old(store.savedFiles)
    ensures store.diskWritable && old(store.savedFiles) == old(store.files) ==> store.savedFiles == store.files
  {
    var file := store.GetFileById(id, userId);
    if file.None? {
      return Missing, Pass;
    }
    if tag in file.value.tags {
      res := store.RemoveTagFromFile(id, userId, tag);
      turn := Untagged;
    } else {
      turn := Lacking(file.value.filename);
      res := Pass;
    }
  }

  /** One bulk-untag turn: the current file lacks the tag now, and the earlier ones still do. */
  lemma UntagStep(before: seq<UploadedFile>, current: seq<UploadedFile>, after: seq<UploadedFile>,
                  ids: seq<string>, i: nat, tag: string, userId: string)
    requires i < |ids|
    requires SameKeys(before, current) && OnlyChanged(current, after, FindFileIndex(current, ids[i], userId))
    requires UntaggedFound(before, current, ids[..i], tag, userId)
    requires FindFileIndex(current, ids[i], userId).Some? ==>
               tag !in after[FindFileIndex(current, ids[i], userId).value].tags
    ensures SameKeys(before, after)
    ensures UntaggedFound(before, after, ids[..i + 1], tag, userId)
  {
    FindFileIndexSameKeys(before, current, ids[i], userId);
    assert ids[..i + 1] == ids[..i] + [ids[i]];
  }

  /** A turn changes only the file of its own id, so the files of ids still unseen stay as they were. */
  lemma UnseenStep(before: seq<UploadedFile>, current: seq<UploadedFile>, after: seq<UploadedFile>,
                   ids: seq<string>, i: nat, userId: string)
    requires i < |ids|
    requires SameKeys(before, current) && SameKeys(before, after)
    requires OnlyChanged(current, after, FindFileIndex(current, ids[i], userId))
    requires UnseenUntouched(before, current, ids[..i])
    ensures UnseenUntouched(before, after, ids[..i + 1])
  {
    assert ids[..i + 1] == ids[..i] + [ids[i]];
    var c := FindFileIndex(current, ids[i], userId);
    forall k | 0 <= k < |before| && before[k].id !in ids[..i + 1]
      ensures after[k] == before[k]
    {
      assert c.Some? ==> current[c.value].id == ids[i] != before[k].id == current[k].id;
    }
  }

  /**
   * One turn keeps "nothing removed yet" equal to "no file seen so far held
   * the tag at the start": a file whose id comes round again has already
   * lost the tag, and one seen for the first time is still as it was.
   */
  lemma HeldTagStep(before: seq<UploadedFile>, current: seq<UploadedFile>, ids: seq<string>, i: nat, tag: string,
                    userId: string, report: BulkUntagReport, turn: UntagTurn)
    requires i < |ids|
    requires SameKeys(before, current)
    requires UnseenUntouched(before, current, ids[..i])
    requires UntaggedFound(before, current, ids[..i], tag, userId)
    requires report.successCount == 0 <==> NoneHeldTag(before, ids[..i], tag, userId)
    requires turn.Missing? <==> FindFileIndex(current, ids[i], userId).None?
    requires FindFileIndex(current, ids[i], userId).Some? ==>
               (turn.Untagged? <==> tag in current[FindFileIndex(current, ids[i], userId).value].tags)
    ensures Record(report, turn, ids[i]).successCount == 0 <==> NoneHeldTag(before, ids[..i + 1], tag, userId)
  {
    FindFileIndexSameKeys(before, current, ids[i], userId);
    assert ids[..i + 1] == ids[..i] + [ids[i]];
    var found := FindFileIndex(before, ids[i], userId);
    if found.Some? {
      var k := found.value;
      if ids[i] in ids[..i] {
        assert !turn.Untagged?;
      } else {
        assert current[k] == before[k];
        assert turn.Untagged? <==> tag in before[k].tags;
      }
    } else {
      assert turn.Missing?;
    }
  }

  /** The report after one turn of the `bulk_untag_files` loop. */
  function Record(report: BulkUntagReport, turn: UntagTurn, id: string): BulkUntagReport {
    match turn
    case Untagged => report.(successCount := report.successCount + 1)
    case Lacking(name) => report.(tagNotFound := report.tagNotFound + [name])
    case Missing => report.(failedFiles := report.failedFiles + [id])
  }

  /** One turn keeps the report's counts in step with the ids seen so far. */
  lemma RecordCounts(report: BulkUntagReport, turn: UntagTurn, before: seq<UploadedFile>, ids: seq<string>, i: nat,
                     userId: string)
    requires i < |ids|
    requires report.failedFiles == MissingIds(before, ids[..i], userId)
    requires report.successCount + |report.tagNotFound| == |FoundIds(before, ids[..i], userId)|
    requires turn.Missing? <==> FindFileIndex(before, ids[i], userId).None?
    ensures Record(report, turn, ids[i]).failedFiles == MissingIds(before, ids[..i + 1], userId)
    ensures Record(report, turn, ids[i]).successCount + |Record(report, turn, ids[i]).tagNotFound|
         == |FoundIds(before, ids[..i + 1], userId)|
  {
    FoundMissingStep(before, ids, i, userId);
  }

  /**
   * What holds after the first `i` ids of a `bulk_untag_files` run: the
   * store keeps its files, the report accounts for exactly the ids seen so
   * far, and no file seen holds the tag.
   */
  predicate UntagRunSoFar(before: seq<UploadedFile>, files: seq<UploadedFile>, ids: seq<string>, i: nat,
                          tag: string, userId: string, report: BulkUntagReport)
  {
    && i <= |ids|
    && SameKeys(before, files)
    && report.failedFiles == MissingIds(before, ids[..i], userId)
    && report.successCount + |report.tagNotFound| == |FoundIds(before, ids[..i], userId)|
    && UntaggedFound(before, files, ids[..i], tag, userId)
    && UnseenUntouched(before, files, ids[..i])
    && (report.successCount == 0 <==> NoneHeldTag(before, ids[..i], tag, userId))
  }

  /** What a whole run promises: every id accounted for and no found file left with the tag. */
  predicate UntagRunDone(before: seq<UploadedFile>, after: seq<UploadedFile>, ids: seq<string>, tag: string,
                         userId: string, report: BulkUntagReport, res: Outcome<StoreError>, writable: bool)
  {
    && SameKeys(before, after)
    && (res.Pass? ==>
          && report.successCount + |report.tagNotFound| + |report.failedFiles| == |ids|
          && report.successCount + |report.tagNotFound| == |FoundIds(before, ids, userId)|
          && report.failedFiles == MissingIds(before, ids, userId)
          && UntaggedFound(before, after, ids, tag, userId)
          && (report.successCount == 0 <==> NoneHeldTag(before, ids, tag, userId)))
    && (res == Pass || res == Fail(PersistenceFailed))
    && (writable ==> res.Pass?)
  }

  /** One successful turn extends the run by one id. */
  lemma UntagRunStep(before: seq<UploadedFile>, current: seq<UploadedFile>, after: seq<UploadedFile>,
                     ids: seq<string>, i: nat, tag: string, userId: string, report: BulkUntagReport, turn: UntagTurn)
    requires i < |ids|
    requires UntagRunSoFar(before, current, ids, i, tag, userId, report)
    requires turn.Missing? <==> FindFileIndex(current, ids[i], userId).None?
    requires OnlyChanged(current, after, FindFileIndex(current, ids[i], userId))
    requires FindFileIndex(current, ids[i], userId).Some? ==>
               tag !in after[FindFileIndex(current, ids[i], userId).value].tags
    requires FindFileIndex(current, ids[i], userId).Some? ==>
               (turn.Untagged? <==> tag in current[FindFileIndex(current, ids[i], userId).value].tags)
    ensures UntagRunSoFar(before, after, ids, i + 1, tag, userId, Record(report, turn, ids[i]))
  {
    FindFileIndexSameKeys(before, current, ids[i], userId);
    UntagStep(before, current, after, ids, i, tag, userId);
    RecordCounts(report, turn, before, ids, i, userId);
    UnseenStep(before, current, after, ids, i, userId);
    HeldTagStep(before, current, ids, i, tag, userId, report, turn);
  }

  /** A failed write, which only happens on a read-only disk, ends the run with the store's files in place. */
  lemma UntagRunFailed(before: seq<UploadedFile>, current: seq<UploadedFile>, after: seq<UploadedFile>,
                       ids: seq<string>, i: nat, tag: string, userId: string, report: BulkUntagReport,
                       writable: bool)
    requires UntagRunSoFar(before, current, ids, i, tag, userId, report)
    requires SameKeys(current, after)
    requires !writable
    ensures UntagRunDone(before, after, ids, tag, userId, report, Fail(PersistenceFailed), writable)
  {
    SameKeysTransitive(before, current, after);
  }

  /** Having seen every id, the run is complete. */
  lemma UntagRunFinished(before: seq<UploadedFile>, after: seq<UploadedFile>, ids: seq<string>, tag: string,
                         userId: string, report: BulkUntagReport, writable: bool)
    requires UntagRunSoFar(before, after, ids, |ids|, tag, userId, report)
    ensures UntagRunDone(before, after, ids, tag, userId, report, Pass, writable)
  {
    assert ids[..|ids|] == ids;
    FoundMissingPartition(before, ids, userId);
  }

  /** One turn of the `bulk_untag_files` loop, on the `i`th id, with the report updated. */
  method UntagNextListed(store: UserStorage, ids: seq<string>, i: nat, userId: string, tag: string,
                         ghost before: seq<UploadedFile>, report: BulkUntagReport)
    returns (next: BulkUntagReport, res: Outcome<StoreError>)
    requires i < |ids|
    requires UntagRunSoFar(before, store.files, ids, i, tag, userId, report)
    modifies store`files, store`savedFiles
    ensures res.Pass? ==> UntagRunSoFar(before, store.files, ids, i + 1, tag, userId, next)
    ensures res.Fail? ==>
              next == report && UntagRunDone(before, store.files, ids, tag, userId, next, res, store.diskWritable)
    ensures store.diskWritable ==> res.Pass?
    ensures !store.diskWritable ==> store.savedFiles == old(store.savedFiles)
    ensures store.diskWritable && old(store.savedFiles) == old(store.files) ==> store.savedFiles == store.files
  {
    ghost var current := store.files;
    var turn;
    turn, res := UntagOneOfMany(store, ids[i], userId, tag);
    if res.Fail? {
      UntagRunFailed(before, current, store.files, ids, i, tag, userId, report, store.diskWritable);
      return report, res;
    }
    UntagRunStep(before, current, store.files, ids, i, tag, userId, report, turn);
    next := Record(report, turn, ids[i]);
  }

  /**
   * The loop of `bulk_untag_files`: every id is counted as untagged, listed
   * as lacking the tag, or listed as not found; a failed write ends the loop.
   */
  method UntagListedFiles(store: UserStorage, ids: seq<string>, userId: string, tag: string)
    returns (report: BulkUntagReport, res: Outcome<StoreError>)
    modifies store`files, store`savedFiles
    ensures SameKeys(old(store.files), store.files)
    ensures res.Pass? ==>
              && report.successCount + |report.tagNotFound| + |report.failedFiles| == |ids|
              && report.successCount + |report.tagNotFound| == |FoundIds(old(store.files), ids, userId)|
              && report.failedFiles == MissingIds(old(store.files), ids, userId)
              && UntaggedFound(old(store.files), store.files, ids, tag, userId)
              && (report.successCount == 0 <==> NoneHeldTag(old(store.files), ids, tag, userId))
    ensures res == Pass || res == Fail(PersistenceFailed)
    ensures store.diskWritable ==> res.Pass?
    ensures !store.diskWritable ==> store.savedFiles == old(store.savedFiles)
    ensures store.diskWritable && old(store.savedFiles) == old(store.files) ==> store.savedFiles == store.files
  {
    report := BulkUntagReport(0, [], []);
    ghost var before := store.files;
    var i := 0;
    while i < |ids|
      invariant UntagRunSoFar(before, store.files, ids, i, tag, userId, report)
      invariant !store.diskWritable ==> store.savedFiles == old(store.savedFiles)
      invariant store.diskWritable && old(store.savedFiles) == old(store.files) ==> store.savedFiles == store.files
    {
      report, res := UntagNextListed(store, ids, i, userId, tag, before, report);
      if res.Fail? {
        return;
      }
      i := i + 1;
    }
    UntagRunFinished(before, store.files, ids, tag, userId, report, store.diskWritable);
    res := Pass;
  }

  /**
   * `bulk_untag_files`: the id list must be non-empty; then the listed files
   * lose the tag in turn, and the command fails when it removed nothing but
   * found the tag missing somewhere.
   */
  method BulkUntagFiles(store: UserStorage, session: Session, fileIds: string, tag: string)
    returns (report: BulkUntagReport, res: Outcome<CliError>)
    modifies store`files, store`savedFiles
    ensures SameKeys(old(store.files), store.files)
    ensures ParseCommaList(fileIds) == [] ==> res == Fail(NoValidFileIds) && store.files == old(store.files)
    ensures ParseCommaList(fileIds) != [] && res != Fail(Storage(PersistenceFailed)) ==>
              var ids := ParseCommaList(fileIds);
              && report.successCount + |report.tagNotFound| + |report.failedFiles| == |ids|
              && report.failedFiles == MissingIds(old(store.files), ids, session.userId)
              && res == UntagVerdict(report, tag)
              && UntaggedFound(old(store.files), store.files, ids, tag, session.userId)
              && (report.successCount == 0 <==> NoneHeldTag(old(store.files), ids, tag, session.userId))
              && (res == Fail(TagNotFoundOnAny(tag)) <==>
                    NoneHeldTag(old(store.files), ids, tag, session.userId)
                    && FoundIds(old(store.files), ids, session.userId) != [])
    ensures ParseCommaList(fileIds) != [] && store.diskWritable ==> res == UntagVerdict(report, tag)
    ensures !store.diskWritable ==> store.savedFiles == old(store.savedFiles)
    ensures store.diskWritable && old(store.savedFiles) == old(store.files) ==> store.savedFiles == store.files
  {
    report := BulkUntagReport(0, [], []);
    var ids := ParseCommaList(fileIds);
    if ids == [] {
      return report, Fail(NoValidFileIds);
    }
    var untagged;
    report, untagged := UntagListedFiles(store, ids, session.userId, tag);
    res := if untagged.Pass? then UntagVerdict(report, tag) else Fail(Storage(untagged.error));
  }

  // ---------------------------------------------------------------------------
  // Notification text (`create_notification`)

  const TitleMark: string := "\U{1F4DA} "
  const MemoMark: string := "\n\U{1F4DD} "

  /** The reminder message: "📚 title", followed by a line "📝 memo" when there is a memo. */
  function NotificationMessage(title: string, memo: Option<string>): (msg: string)
    ensures |TitleMark| <= |msg| && msg[..|TitleMark|] == TitleMark
  {
    match memo
    case None => TitleMark + title
    case Some(m) => TitleMark + title + MemoMark + m
  }

  /** The first index of `c` in `s`, if any. */
  function IndexOf(s: string, c: char): (i: Option<nat>)
    ensures i.Some? ==> i.value < |s| && s[i.value] == c && c !in s[..i.value]
    ensures i.None? ==> c !in s
    decreases |s|
  {
    if s == [] then None
    else if s[0] == c then Some(0)
    else
      match IndexOf(s[1..], c)
      case None => None
      case Some(j) =>
        assert s[..j + 1] == [s[0]] + s[1..][..j];
        Some(j + 1)
  }

  /** Reads a title and an optional memo back from a notification message. */
  function ParseNotification(msg: string): Option<(string, Option<string>)> {
    if |msg| < |TitleMark| || msg[..|TitleMark|] != TitleMark then None
    else
      var body := msg[|TitleMark|..];
      match IndexOf(body, '\n')
      case None => Some((body, None))
      case Some(i) =>
        if |body| - i >= |MemoMark| && body[i..i + |MemoMark|] == MemoMark
        then Some((body[..i], Some(body[i + |MemoMark|..])))
        else None
  }

  lemma IndexOfAfter(a: string, b: string, c: char)
    requires c !in a && b != [] && b[0] == c
    ensures IndexOf(a + b, c) == Some(|a|)
    decreases |a|
  {
    if a != [] {
      assert (a + b)[1..] == a[1..] + b;
      IndexOfAfter(a[1..], b, c);
    }
  }

  /** A title without a line break and its memo are read back from the message. */
  lemma NotificationRoundTrip(title: string, memo: Option<string>)
    requires '\n' !in title
    ensures ParseNotification(NotificationMessage(title, memo)) == Some((title, memo))
  {
    var msg := NotificationMessage(title, memo);
    match memo
    case None =>
      assert msg[|TitleMark|..] == title;
    case Some(m) =>
      var body := title + MemoMark + m;
      assert msg[|TitleMark|..] == body;
      IndexOfAfter(title, MemoMark + m, '\n');
      assert body == title + (MemoMark + m);
      assert body[|title|..|title| + |MemoMark|] == MemoMark;
      assert body[..|title|] == title;
      assert body[|title| + |MemoMark|..] == m;
  }

  /** The message never is blank, so the reminder service never refuses it as empty. */
  lemma NotificationNeverBlank(title: string, memo: Option<string>)
    ensures !IsBlank(NotificationMessage(title, memo))
  {
    var msg := NotificationMessage(title, memo);
    assert msg[0] == TitleMark[0];
    assert !IsWhitespace('\U{1F4DA}');
  }
}
