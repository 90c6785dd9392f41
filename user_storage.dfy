/**
 * The account and upload store of the quiz tool (src/user_storage.rs): two
 * in-memory lists, each written out whole after every change.
 */
module UserStore {
  import opened Wrappers
  import opened Filtering
  import opened UserModels

  /** The store's failures: its own two refusals and a snapshot write that fails. */
  datatype StoreError = UsernameTaken | FileNotFound | PersistenceFailed

  // ---------------------------------------------------------------------------
  // Users

  predicate HasUsername(users: seq<User>, username: string) {
    exists k :: 0 <= k < |users| && users[k].username == username
  }

  predicate UniqueUsernames(users: seq<User>) {
    forall i, j :: 0 <= i < j < |users| ==> users[i].username != users[j].username
  }

  /** `iter().find(|u| u.username == username)`: the first user with exactly that name. */
  function FindUser(users: seq<User>, username: string): (r: Option<User>)
    ensures r.None? <==> !HasUsername(users, username)
    ensures r.Some? ==> exists k :: 0 <= k < |users| && users[k] == r.value
                                    && r.value.username == username
                                    && forall j :: 0 <= j < k ==> users[j].username != username
    decreases |users|
  {
    if users == [] then None
    else if users[0].username == username then Some(users[0])
    else
      var r := FindUser(users[1..], username);
      assert forall k :: 0 < k < |users| ==> users[k] == users[1..][k - 1];
      r
  }

  /** With unique names, the user found is the only one with that name. */
  lemma FindUserUnique(users: seq<User>, username: string, k: nat)
    requires UniqueUsernames(users) && k < |users| && users[k].username == username
    ensures FindUser(users, username) == Some(users[k])
  {
  }

  /** Appending a user whose name is new keeps the names unique. */
  lemma AppendKeepsUnique(users: seq<User>, user: User)
    requires UniqueUsernames(users) && !HasUsername(users, user.username)
    ensures UniqueUsernames(users + [user])
  {
    var all := users + [user];
    forall i, j | 0 <= i < j < |all| ensures all[i].username != all[j].username {
      if j == |users| {
        assert all[i] == users[i];
      } else {
        assert all[i] == users[i] && all[j] == users[j];
      }
    }
  }

  // ---------------------------------------------------------------------------
  // Files

  /** `get_user_files`: the files owned by `userId`, in store order. */
  function FilesOf(files: seq<UploadedFile>, userId: string): (r: seq<UploadedFile>)
    ensures forall f :: f in r <==> f in files && f.userId == userId
  {
    Filter(files, (f: UploadedFile) => f.userId == userId)
  }

  /** The index of the first file with this id that belongs to `userId`. */
  function FindFileIndex(files: seq<UploadedFile>, fileId: string, userId: string): (k: Option<nat>)
    ensures k.Some? ==> k.value < |files| && files[k.value].id == fileId && files[k.value].userId == userId
    ensures k.Some? ==> forall j :: 0 <= j < k.value ==> !(files[j].id == fileId && files[j].userId == userId)
    ensures k.None? ==> forall j :: 0 <= j < |files| ==> !(files[j].id == fileId && files[j].userId == userId)
    decreases |files|
  {
    if files == [] then None
    else if files[0].id == fileId && files[0].userId == userId then Some(0)
    else
      match FindFileIndex(files[1..], fileId, userId)
      case None => None
      case Some(k) => Some(k + 1)
  }

  /** `get_file_by_id`: a file is found only under its owner's id. */
  function FindFile(files: seq<UploadedFile>, fileId: string, userId: string): (r: Option<UploadedFile>)
    ensures r.Some? ==> r.value in files && r.value.id == fileId && r.value.userId == userId
    ensures r.None? <==> forall f :: f in files ==> !(f.id == fileId && f.userId == userId)
  {
    match FindFileIndex(files, fileId, userId)
    case None => None
    case Some(k) => Some(files[k])
  }

  /** Another user's file is invisible: looking it up under a different owner finds nothing of it. */
  lemma OtherOwnersFileInvisible(files: seq<UploadedFile>, f: UploadedFile, userId: string)
    requires f in files && f.userId != userId
    ensures FindFile(files, f.id, userId) != Some(f)
  {
  }

  predicate SameKeys(a: seq<UploadedFile>, b: seq<UploadedFile>) {
    |a| == |b| && forall k :: 0 <= k < |a| ==> a[k].id == b[k].id && a[k].userId == b[k].userId
  }

  /** The search depends only on ids and owners. */
  lemma FindFileIndexSameKeys(a: seq<UploadedFile>, b: seq<UploadedFile>, fileId: string, userId: string)
    requires SameKeys(a, b)
    ensures FindFileIndex(a, fileId, userId) == FindFileIndex(b, fileId, userId)
  {
    var ka, kb := FindFileIndex(a, fileId, userId), FindFileIndex(b, fileId, userId);
    if ka.Some? && kb.Some? {
      assert !(ka.value < kb.value) && !(kb.value < ka.value);
    }
  }

  // ---------------------------------------------------------------------------
  // Tags

  /** `if !tags.contains(&tag) { tags.push(tag) }`. */
  function WithTag(tags: seq<string>, tag: string): (r: seq<string>)
    ensures tag in r
    ensures forall t :: t in r <==> t in tags || t == tag
    ensures tag in tags ==> r == tags
    ensures tag !in tags ==> r == tags + [tag]
  {
    if tag in tags then tags else tags + [tag]
  }

  /** `tags.retain(|t| t != tag)`: every occurrence of `tag` goes, the rest keep their order. */
  function WithoutTag(tags: seq<string>, tag: string): (r: seq<string>)
    ensures tag !in r
    ensures forall t :: t in r <==> t in tags && t != tag
  {
    Filter(tags, (t: string) => t != tag)
  }

  /** Adding never creates a duplicate tag. */
  lemma WithTagNoDuplicates(tags: seq<string>, tag: string)
    requires NoDuplicates(tags)
    ensures NoDuplicates(WithTag(tags, tag))
  {
    if tag !in tags {
      var r := tags + [tag];
      forall i, j | 0 <= i < j < |r| ensures r[i] != r[j] {
        assert r[i] == tags[i];
        if j < |tags| {
          assert r[j] == tags[j];
        }
      }
    }
  }

  /** Removing never creates a duplicate tag. */
  lemma WithoutTagNoDuplicates(tags: seq<string>, tag: string)
    requires NoDuplicates(tags)
    ensures NoDuplicates(WithoutTag(tags, tag))
  {
    FilterNoDuplicates(tags, (t: string) => t != tag);
  }

  /** Removing counts: other tags keep every occurrence, and `tag` keeps none. */
  lemma WithoutTagCounts(tags: seq<string>, tag: string)
    ensures forall t :: multiset(WithoutTag(tags, tag))[t] == if t == tag then 0 else multiset(tags)[t]
  {
    FilterMultiplicity(tags, (t: string) => t != tag);
  }

  /** Removing an absent tag changes nothing. */
  lemma WithoutAbsentTag(tags: seq<string>, tag: string)
    requires tag !in tags
    ensures WithoutTag(tags, tag) == tags
  {
    FilterAll(tags, (t: string) => t != tag);
  }

  /** Adding a tag that was absent and then removing it gives the original list. */
  lemma AddThenRemoveTag(tags: seq<string>, tag: string)
    requires tag !in tags
    ensures WithoutTag(WithTag(tags, tag), tag) == tags
  {
    var p := (t: string) => t != tag;
    FilterAppend(tags, [tag], p);
    FilterAll(tags, p);
    assert Filter([tag], p) == Filter([], p) + [];
  }

  /** Both tag edits are idempotent. */
  lemma TagEditsIdempotent(tags: seq<string>, tag: string)
    ensures WithTag(WithTag(tags, tag), tag) == WithTag(tags, tag)
    ensures WithoutTag(WithoutTag(tags, tag), tag) == WithoutTag(tags, tag)
  {
    WithoutAbsentTag(WithoutTag(tags, tag), tag);
  }

  /** The file list after `add_tag_to_file`: only the first matching file changes. */
  function TagAdded(files: seq<UploadedFile>, fileId: string, userId: string, tag: string)
    : (r: seq<UploadedFile>)
    ensures SameKeys(files, r)
    ensures !AddTagWrites(files, fileId, userId, tag) ==> r == files
    ensures FindFileIndex(files, fileId, userId).Some? ==>
              var k := FindFileIndex(files, fileId, userId).value;
              && r[k] == files[k].(tags := WithTag(files[k].tags, tag))
              && forall j :: 0 <= j < |files| && j != k ==> r[j] == files[j]
  {
    match FindFileIndex(files, fileId, userId)
    case None => files
    case Some(k) => files[k := files[k].(tags := WithTag(files[k].tags, tag))]
  }

  /** The file list after `remove_tag_from_file`: only the first matching file changes. */
  function TagRemoved(files: seq<UploadedFile>, fileId: string, userId: string, tag: string)
    : (r: seq<UploadedFile>)
    ensures SameKeys(files, r)
    ensures FindFileIndex(files, fileId, userId).None? ==> r == files
    ensures FindFileIndex(files, fileId, userId).Some? ==>
              var k := FindFileIndex(files, fileId, userId).value;
              && r[k] == files[k].(tags := WithoutTag(files[k].tags, tag))
              && forall j :: 0 <= j < |files| && j != k ==> r[j] == files[j]
  {
    match FindFileIndex(files, fileId, userId)
    case None => files
    case Some(k) => files[k := files[k].(tags := WithoutTag(files[k].tags, tag))]
  }

  /** Whether `add_tag_to_file` writes: the file is found and lacks the tag. */
  predicate AddTagWrites(files: seq<UploadedFile>, fileId: string, userId: string, tag: string) {
    var k := FindFileIndex(files, fileId, userId);
    k.Some? && tag !in files[k.value].tags
  }

  /** What `add_tag_to_file` returns when a write succeeds exactly if `writable`. */
  function AddTagOutcome(files: seq<UploadedFile>, fileId: string, userId: string, tag: string, writable: bool)
    : (res: Outcome<StoreError>)
    ensures res == Fail(FileNotFound) <==> FindFileIndex(files, fileId, userId).None?
    ensures res == Fail(PersistenceFailed) <==> AddTagWrites(files, fileId, userId, tag) && !writable
  {
    match FindFileIndex(files, fileId, userId)
    case None => Fail(FileNotFound)
    case Some(k) => if tag in files[k].tags || writable then Pass else Fail(PersistenceFailed)
  }

  /** Tagging the same file with the same tag twice is the same as once. */
  lemma TagAddedIdempotent(files: seq<UploadedFile>, fileId: string, userId: string, tag: string)
    ensures TagAdded(TagAdded(files, fileId, userId, tag), fileId, userId, tag) == TagAdded(files, fileId, userId, tag)
  {
    FindFileIndexSameKeys(files, TagAdded(files, fileId, userId, tag), fileId, userId);
    if FindFileIndex(files, fileId, userId).Some? {
      TagEditsIdempotent(files[FindFileIndex(files, fileId, userId).value].tags, tag);
    }
  }

  /** Untagging the same file with the same tag twice is the same as once. */
  lemma TagRemovedIdempotent(files: seq<UploadedFile>, fileId: string, userId: string, tag: string)
    ensures TagRemoved(TagRemoved(files, fileId, userId, tag), fileId, userId, tag) == TagRemoved(files, fileId, userId, tag)
  {
    FindFileIndexSameKeys(files, TagRemoved(files, fileId, userId, tag), fileId, userId);
    if FindFileIndex(files, fileId, userId).Some? {
      TagEditsIdempotent(files[FindFileIndex(files, fileId, userId).value].tags, tag);
    }
  }

  // ---------------------------------------------------------------------------
  // The store

  /**
   * `UserStorage`. `users` and `files` are the lists behind the two locks;
   * `savedUsers` and `savedFiles` are what the last successful writes put on
   * disk; `diskWritable` says whether a write succeeds.
   */
  class UserStorage {
    var users: seq<User>
    var files: seq<UploadedFile>
    var diskWritable: bool
    ghost var savedUsers: seq<User>
    ghost var savedFiles: seq<UploadedFile>

    /** The store over the lists loaded from disk (the JSON load itself is not modelled). */
    constructor (users: seq<User>, files: seq<UploadedFile>, diskWritable: bool)
      ensures this.users == users && this.files == files && this.diskWritable == diskWritable
      ensures savedUsers == users && savedFiles == files
    {
      this.users := users;
      this.files := files;
      this.diskWritable := diskWritable;
      savedUsers := users;
      savedFiles := files;
    }

    /** `save_users_to_disk`. */
    method SaveUsers() returns (res: Outcome<StoreError>)
      modifies this`savedUsers
      ensures res == if diskWritable then Pass else Fail(PersistenceFailed)
      ensures savedUsers == if diskWritable then users else old(savedUsers)
    {
      if diskWritable {
        savedUsers := users;
        res := Pass;
      } else {
        res := Fail(PersistenceFailed);
      }
    }

    /** `save_files_to_disk`. */
    method SaveFiles() returns (res: Outcome<StoreError>)
      modifies this`savedFiles
      ensures res == if diskWritable then Pass else Fail(PersistenceFailed)
      ensures savedFiles == if diskWritable then files else old(savedFiles)
    {
      if diskWritable {
        savedFiles := files;
        res := Pass;
      } else {
        res := Fail(PersistenceFailed);
      }
    }

    /**
     * `create_user`: refuse a taken name, otherwise append and write. Names
     * that were unique stay unique; a failed write leaves the user in memory.
     */
    method CreateUser(user: User) returns (res: Result<User, StoreError>)
      modifies this`users, this`savedUsers
      ensures HasUsername(old(users), user.username) ==>
                res == Err(UsernameTaken) && users == old(users) && savedUsers == old(savedUsers)
      ensures !HasUsername(old(users), user.username) ==>
                && users == old(users) + [user]
                && res == (if diskWritable then Ok(user) else Err(PersistenceFailed))
                && savedUsers == (if diskWritable then users else old(savedUsers))
      ensures UniqueUsernames(old(users)) ==> UniqueUsernames(users)
    {
      if HasUsername(users, user.username) {
        return Err(UsernameTaken);
      }
      ghost var before := users;
      users := users + [user];
      if UniqueUsernames(before) {
        AppendKeepsUnique(before, user);
      }
      var saved := SaveUsers();
      res := if saved.Pass? then Ok(user) else Err(PersistenceFailed);
    }

    /** `get_user_by_username`. */
    function GetUserByUsername(username: string): Option<User>
      reads this
    {
      FindUser(users, username)
    }

    /** `add_file`: append the file unchanged, then write. */
    method AddFile(file: UploadedFile) returns (res: Result<UploadedFile, StoreError>)
      modifies this`files, this`savedFiles
      ensures files == old(files) + [file]
      ensures res == if diskWritable then Ok(file) else Err(PersistenceFailed)
      ensures savedFiles == if diskWritable then files else old(savedFiles)
    {
      files := files + [file];
      var saved := SaveFiles();
      res := if saved.Pass? then Ok(file) else Err(PersistenceFailed);
    }

    /** `get_user_files`. */
    function GetUserFiles(userId: string): seq<UploadedFile>
      reads this
    {
      FilesOf(files, userId)
    }

    /** `get_file_by_id`. */
    function GetFileById(fileId: string, userId: string): Option<UploadedFile>
      reads this
    {
      FindFile(files, fileId, userId)
    }

    /**
     * `add_tag_to_file`: an unknown file is an error; a tag already present is
     * a success that writes nothing; otherwise the tag is appended and written.
     */
    method AddTagToFile(fileId: string, userId: string, tag: string) returns (res: Outcome<StoreError>)
      modifies this`files, this`savedFiles
      ensures files == TagAdded(old(files), fileId, userId, tag)
      ensures res == AddTagOutcome(old(files), fileId, userId, tag, diskWritable)
      ensures savedFiles == if AddTagWrites(old(files), fileId, userId, tag) && diskWritable then files else old(savedFiles)
    {
      var found := FindFileIndex(files, fileId, userId);
      if found.None? {
        return Fail(FileNotFound);
      }
      var k := found.value;
      if tag in files[k].tags {
        return Pass;
      }
      files := files[k := files[k].(tags := files[k].tags + [tag])];
      res := SaveFiles();
    }

    /**
     * `remove_tag_from_file`: an unknown file is an error; otherwise every
     * occurrence of the tag is removed and the list written, present or not.
     */
    method RemoveTagFromFile(fileId: string, userId: string, tag: string) returns (res: Outcome<StoreError>)
      modifies this`files, this`savedFiles
      ensures files == TagRemoved(old(files), fileId, userId, tag)
      ensures FindFileIndex(old(files), fileId, userId).None? ==>
                res == Fail(FileNotFound) && savedFiles == old(savedFiles)
      ensures FindFileIndex(old(files), fileId, userId).Some? ==>
                && res == (if diskWritable then Pass else Fail(PersistenceFailed))
                && savedFiles == (if diskWritable then files else old(savedFiles))
    {
      var found := FindFileIndex(files, fileId, userId);
      if found.None? {
        return Fail(FileNotFound);
      }
      var k := found.value;
      files := files[k := files[k].(tags := WithoutTag(files[k].tags, tag))];
      res := SaveFiles();
    }
  }
}
