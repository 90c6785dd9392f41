/**
 * The account and upload records of the quiz tool (src/user_models.rs).
 *
 * Instants are integers counting nanoseconds since the Unix epoch; the UUID
 * and the clock reading each constructor takes from the system are
 * parameters.
 */
module UserModels {
  import opened Wrappers

  datatype User = User(id: string, username: string, passwordHash: string, createdAt: int)

  datatype UploadedFile = UploadedFile(
    id: string,
    userId: string,
    filename: string,
    content: string,
    uploadedAt: int,
    tags: seq<string>)

  /** `User::new`: the given name and hash, a fresh id and the creation instant. */
  function NewUser(id: string, username: string, passwordHash: string, now: int): (u: User)
    ensures u.id == id && u.createdAt == now
    ensures u.username == username && u.passwordHash == passwordHash
  {
    User(id, username, passwordHash, now)
  }

  /** `UploadedFile::new`: the given owner, name and text, and no tags yet. */
  function NewUploadedFile(id: string, userId: string, filename: string, content: string, now: int)
    : (f: UploadedFile)
    ensures f.tags == []
    ensures f.id == id && f.uploadedAt == now
    ensures f.userId == userId && f.filename == filename && f.content == content
  {
    UploadedFile(id, userId, filename, content, now, [])
  }

  /**
   * An uploaded-file object as it stands in the JSON file: records written
   * before tagging existed have no "tags" member.
   */
  datatype FileRecord = FileRecord(
    id: string,
    userId: string,
    filename: string,
    content: string,
    uploadedAt: int,
    tags: Option<seq<string>>)

  /** Reading a record back (`#[serde(default)]` on `tags`): a missing tag list is the empty list. */
  function FromRecord(rec: FileRecord): (f: UploadedFile)
    ensures f.tags == if rec.tags.Some? then rec.tags.value else []
    ensures f.id == rec.id && f.userId == rec.userId && f.filename == rec.filename
    ensures f.content == rec.content && f.uploadedAt == rec.uploadedAt
  {
    UploadedFile(rec.id, rec.userId, rec.filename, rec.content, rec.uploadedAt,
                 match rec.tags case Some(ts) => ts case None => [])
  }

  /** Writing a file out: the tag list is always present. */
  function ToRecord(f: UploadedFile): (rec: FileRecord)
    ensures rec.tags == Some(f.tags)
  {
    FileRecord(f.id, f.userId, f.filename, f.content, f.uploadedAt, Some(f.tags))
  }

  /** A file written out and read back is the same file. */
  lemma FileRoundTrip(f: UploadedFile)
    ensures FromRecord(ToRecord(f)) == f
  {
  }

  /** A record without tags reads back exactly as one with an empty tag list. */
  lemma MissingTagsReadAsEmpty(rec: FileRecord)
    requires rec.tags.None?
    ensures FromRecord(rec) == FromRecord(rec.(tags := Some([])))
    ensures FromRecord(rec).tags == []
  {
  }

  /** Reading a record that has its tag list and writing it out again gives the record back. */
  lemma RecordRoundTrip(rec: FileRecord)
    requires rec.tags.Some?
    ensures ToRecord(FromRecord(rec)) == rec
  {
  }
}
