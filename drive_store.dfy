/**
 * The drive controller's handlers that change tables: upload, content
 * update, delete, permanent delete, copy, the starred/trashed/archived
 * flags and rename. They are methods of a class that owns `files`, the
 * storage columns of `users`, `drivefolders` and `failed_deletions`. Every
 * handler keeps each account's `used_storage` equal to the total size of
 * the account's files.
 */
module DriveStore {
  import opened Common
  import opened DriveRules

  /** The tables the drive controller reads and writes. */
  datatype Drive = Drive(
    files: seq<DriveFile>,
    accounts: seq<Account>,
    folders: seq<DriveFolder>,
    cleanup: map<string, nat>)

  /** File ids are unique and every `used_storage` is its owner's total. */
  ghost predicate Consistent(d: Drive)
  {
    UniqueFileIds(d.files) && Tracks(d.accounts, d.files)
  }

  // ---------------------------------------------------------------------
  // uploadFile
  // ---------------------------------------------------------------------

  /**
   * The multipart fields the upload handler reads: the name (absent or not
   * a string is `None`), the MIME type with its default applied, the
   * folder from the route and the parent from the body, a client id, the
   * encryption metadata, and the size of the uploaded buffer (`None` when
   * no file came).
   */
  datatype UploadRequest = UploadRequest(
    name: Option<string>,
    mimeType: string,
    folderId: Option<string>,
    parentId: Option<string>,
    incomingId: Option<string>,
    iv: Option<string>,
    encryptedKey: Option<string>,
    data: Option<nat>)

  /** `folderId || parentId || null`. */
  function FinalParent(folderId: Option<string>, parentId: Option<string>): (r: Option<string>)
    ensures r.None? <==> !Truthy(folderId) && !Truthy(parentId)
    ensures r.Some? ==> r.value != [] && (if Truthy(folderId) then r == folderId else r == parentId)
  {
    if Truthy(folderId) then folderId else if Truthy(parentId) then parentId else None
  }

  /** `incomingId && isValidUUID(incomingId) ? incomingId : uuidv4()`. */
  function UploadId(incomingId: Option<string>, drawnId: string): (r: string)
    ensures r != drawnId ==> incomingId == Some(r) && IsUuid(r, AnyVersion)
  {
    if incomingId.Some? && IsUuid(incomingId.value, AnyVersion) then incomingId.value else drawnId
  }

  /** The row the upload inserts; the flags start false and the timestamps NULL. */
  function NewFileRow(id: string, name: string, mimeType: string, size: nat, parent: Option<string>,
                      owner: string, iv: string, key: string): DriveFile
  {
    DriveFile(id, name, "file", mimeType, size, parent, owner, iv, key, false, false, false, None, None, None)
  }

  /**
   * `uploadFile`: 400 for a missing name, file, encryption metadata or a
   * malformed user or folder id; 404 for a folder the caller does not own
   * or an unknown user; 403 over quota; 500 when the disk write fails or
   * the id is taken. Otherwise the row is inserted and the size is added
   * to `used_storage`.
   */
  ghost predicate Uploaded(d: Drive, userId: string, req: UploadRequest, drawnId: string, stored: bool,
                           r: Result<DriveFile>, d': Drive)
  {
    var parent := FinalParent(req.folderId, req.parentId);
    if !Truthy(req.name) || req.data.None? || !IsUuid(userId, AnyVersion)
       || !Truthy(req.iv) || !Truthy(req.encryptedKey) then
      r == Err(BadRequest) && d' == d
    else if parent.Some? && !IsUuid(parent.value, AnyVersion) then r == Err(BadRequest) && d' == d
    else if parent.Some? && !HasDriveFolder(d.folders, parent.value, userId) then r == Err(NotFound) && d' == d
    else
      var id := UploadId(req.incomingId, drawnId);
      match AccountOf(d.accounts, userId)
      case None => r == Err(NotFound) && d' == d
      case Some(a) =>
        if UploadExceeds(a, req.data.value) then r == Err(Forbidden) && d' == d
        else if !stored || FileById(d.files, id).Some? then r == Err(ServerError) && d' == d
        else
          var f := NewFileRow(id, req.name.value, req.mimeType, req.data.value, parent, userId,
                              req.iv.value, req.encryptedKey.value);
          r == Ok(f) && d' == d.(files := d.files + [f], accounts := AddUsed(d.accounts, userId, req.data.value))
  }

  // ---------------------------------------------------------------------
  // updateFile
  // ---------------------------------------------------------------------

  /**
   * `updateFile`: 400 without an id, 404 for a file the caller does not
   * own. New content (its decoded length in `content`) is charged as
   * `used - oldSize + newSize` against the limit or its one-gibibyte
   * default (404 for an unknown user, 403 over the limit, 500 when the disk
   * write fails); then name and parent are coalesced and the size written.
   */
  ghost predicate FileUpdated(d: Drive, userId: string, id: string, content: Option<nat>, fileName: Option<string>,
                              parentId: Option<string>, written: bool, r: Result<DriveFile>, d': Drive)
  {
    if id == [] || userId == [] then r == Err(BadRequest) && d' == d
    else
      match FileOf(d.files, id, userId)
      case None => r == Err(NotFound) && d' == d
      case Some(f) =>
        if content.None? then
          var c := Rewrite(fileName, parentId, f.size);
          r == Ok(Changed(f, c)) && d' == d.(files := Update(d.files, id, Some(userId), c))
        else
          match AccountOf(d.accounts, userId)
          case None => r == Err(NotFound) && d' == d
          case Some(a) =>
            if UpdateExceeds(a, f.size, content.value) then r == Err(Forbidden) && d' == d
            else if !written then r == Err(ServerError) && d' == d
            else
              var c := Rewrite(fileName, parentId, content.value);
              r == Ok(Changed(f, c))
              && d' == d.(files := Update(d.files, id, Some(userId), c),
                          accounts := SetUsed(d.accounts, userId, NewUsage(a, f.size, content.value)))
  }

  // ---------------------------------------------------------------------
  // deleteFile and permanentDeleteFile
  // ---------------------------------------------------------------------

  /**
   * `deleteFile`: 404 for a file the caller does not own, 500 when
   * unlinking throws; otherwise the row is deleted and its size subtracted
   * from `used_storage`. The result is the size freed.
   */
  ghost predicate FileDeleted(d: Drive, userId: string, id: string, unlinked: bool, r: Result<nat>, d': Drive)
  {
    match FileOf(d.files, id, userId)
    case None => r == Err(NotFound) && d' == d
    case Some(f) =>
      if !unlinked then r == Err(ServerError) && d' == d
      else
        r == Ok(f.size)
        && d' == d.(files := Without(d.files, id, Some(userId)), accounts := AddUsed(d.accounts, userId, Refund(f.size)))
  }

  /** `INSERT INTO failed_deletions … ON CONFLICT (file_id) DO UPDATE SET attempts = attempts + 1`. */
  function MarkForCleanup(cleanup: map<string, nat>, id: string): (r: map<string, nat>)
    ensures id in r && r[id] == (if id in cleanup then cleanup[id] + 1 else 1)
    ensures forall x :: x in cleanup && x != id ==> x in r && r[x] == cleanup[x]
    ensures forall x :: x in r ==> x in cleanup || x == id
  {
    cleanup[id := if id in cleanup then cleanup[id] + 1 else 1]
  }

  /**
   * `permanentDeleteFile` with `failed` the tables after the disk deletion
   * fails: 400 for a malformed id, 404 for a file the caller does not own;
   * otherwise the row is deleted and its size subtracted.
   */
  ghost predicate PermanentDeleteOutcome(d: Drive, userId: string, id: string, removed: bool, failed: Drive,
                                         r: Result<nat>, d': Drive)
  {
    if !IsUuid(id, AnyVersion) then r == Err(BadRequest) && d' == d
    else
      match FileOf(d.files, id, userId)
      case None => r == Err(NotFound) && d' == d
      case Some(f) =>
        if !removed then r == Err(ServerError) && d' == failed
        else
          r == Ok(f.size)
          && d' == d.(files := Without(d.files, id, None), accounts := AddUsed(d.accounts, userId, Refund(f.size)))
  }

  /** As written: the cleanup mark is inserted inside the transaction that is then rolled back, so nothing is kept. */
  ghost predicate PermanentlyDeletedAsWritten(d: Drive, userId: string, id: string, removed: bool, r: Result<nat>, d': Drive)
    ensures PermanentlyDeletedAsWritten(d, userId, id, removed, r, d') ==> d'.cleanup == d.cleanup
    ensures PermanentlyDeletedAsWritten(d, userId, id, removed, r, d') && !removed ==> d' == d
  {
    PermanentDeleteOutcome(d, userId, id, removed, d, r, d')
  }

  /** As intended: a failed disk deletion leaves the file marked for cleanup. */
  ghost predicate PermanentlyDeleted(d: Drive, userId: string, id: string, removed: bool, r: Result<nat>, d': Drive)
  {
    PermanentDeleteOutcome(d, userId, id, removed, d.(cleanup := MarkForCleanup(d.cleanup, id)), r, d')
  }

  // ---------------------------------------------------------------------
  // copyFile
  // ---------------------------------------------------------------------

  /** The copy's row: the original's columns under a new id and name, with the flags false. */
  function CopyRow(f: DriveFile, newId: string, name: string, owner: string): DriveFile
  {
    DriveFile(newId, name, f.kind, f.mimeType, f.size, f.parentId, owner, f.iv, f.encryptedKey,
              false, false, false, None, None, None)
  }

  /**
   * `copyFile`: 400 for a malformed id, 404 for a file the caller does not
   * own, 500 for an unknown user (the handler reads a field of an undefined
   * row), 403 when `Number` coercion puts the copy over the limit, 500 when
   * the disk copy fails or the new id is taken. Otherwise the copy is
   * inserted next to the original and its size added to `used_storage`.
   */
  ghost predicate FileCopied(d: Drive, userId: string, id: string, newId: string, copied: bool,
                             r: Result<DriveFile>, d': Drive)
  {
    if !IsUuid(id, AnyVersion) then r == Err(BadRequest) && d' == d
    else
      match FileOf(d.files, id, userId)
      case None => r == Err(NotFound) && d' == d
      case Some(f) =>
        match AccountOf(d.accounts, userId)
        case None => r == Err(ServerError) && d' == d
        case Some(a) =>
          if CopyExceeds(a, f.size) then r == Err(Forbidden) && d' == d
          else if !copied || FileById(d.files, newId).Some? then r == Err(ServerError) && d' == d
          else
            var g := CopyRow(f, newId, CopyName(d.files, userId, f.parentId, f.name), userId);
            r == Ok(g) && d' == d.(files := d.files + [g], accounts := AddUsed(d.accounts, userId, f.size))
  }

  // ---------------------------------------------------------------------
  // updateFileState and renameFile
  // ---------------------------------------------------------------------

  /**
   * `updateFileState`: 400 for a field other than the three flags; the
   * value is true exactly when it lower-cases to `true`, and the flag's
   * timestamp is set to now when true and cleared otherwise; 404 when the
   * caller owns no file with the id.
   */
  ghost predicate StateUpdated(d: Drive, userId: string, id: string, field: string, value: string, now: Time,
                               r: Result<DriveFile>, d': Drive)
  {
    match ParseStateField(field)
    case None => r == Err(BadRequest) && d' == d
    case Some(fl) =>
      var c := SetState(fl, Lower(value) == "true", now);
      match FileOf(d.files, id, userId)
      case None => r == Err(NotFound) && d' == d
      case Some(f) => r == Ok(Changed(f, c)) && d' == d.(files := Update(d.files, id, Some(userId), c))
  }

  /** Another file of the owner has the name under the same parent, compared with SQL `=`. */
  predicate RenameClash(files: seq<DriveFile>, userId: string, parent: Option<string>, id: string, name: string)
  {
    exists i :: 0 <= i < |files| && files[i].name == name && files[i].ownerId == userId
                && SqlEq(files[i].parentId, parent) && files[i].id != id
  }

  /** `(req.body.name || '').trim()`. */
  function RequestedName(name: Option<string>): string
  {
    Trim(if name.Some? then name.value else "")
  }

  /**
   * `renameFile`: 400 unless the trimmed name is non-empty and made of
   * letters, digits, `_`, `.`, `-` and whitespace; 404 when no file has the
   * id, 403 when another user owns it, 409 when a sibling already has the
   * name. Otherwise the name is written.
   */
  ghost predicate FileRenamed(d: Drive, userId: string, id: string, name: Option<string>, r: Result<string>, d': Drive)
  {
    var newName := RequestedName(name);
    if !ValidFileName(newName) then r == Err(BadRequest) && d' == d
    else
      match FileById(d.files, id)
      case None => r == Err(NotFound) && d' == d
      case Some(f) =>
        if f.ownerId != userId then r == Err(Forbidden) && d' == d
        else if RenameClash(d.files, userId, f.parentId, id, newName) then r == Err(Conflict) && d' == d
        else r == Ok(newName) && d' == d.(files := Update(d.files, id, None, Rename(newName)))
  }

  // ---------------------------------------------------------------------
  // The tables as a class
  // ---------------------------------------------------------------------

  class DriveDb {
    var files: seq<DriveFile>
    var accounts: seq<Account>
    var folders: seq<DriveFolder>
    var cleanup: map<string, nat>

    function State(): Drive
      reads this
    {
      Drive(files, accounts, folders, cleanup)
    }

    ghost predicate Valid()
      reads this
    {
      Consistent(State())
    }

    constructor (d: Drive)
      requires Consistent(d)
      ensures Valid() && State() == d
    {
      files, accounts, folders, cleanup := d.files, d.accounts, d.folders, d.cleanup;
    }

    /** `uploadFile`; `drawnId` is the UUID drawn for the row and `stored` whether the disk write succeeded. */
    method UploadFile(userId: string, req: UploadRequest, drawnId: string, stored: bool) returns (r: Result<DriveFile>)
      requires Valid()
      modifies this
      ensures Valid()
      ensures Uploaded(old(State()), userId, req, drawnId, stored, r, State())
    {
      if !Truthy(req.name) || req.data.None? || !IsUuid(userId, AnyVersion)
         || !Truthy(req.iv) || !Truthy(req.encryptedKey) {
        return Err(BadRequest);
      }
      var parent := FinalParent(req.folderId, req.parentId);
      if parent.Some? && !IsUuid(parent.value, AnyVersion) {
        return Err(BadRequest);
      }
      if parent.Some? && !HasDriveFolder(folders, parent.value, userId) {
        return Err(NotFound);
      }
      var id := UploadId(req.incomingId, drawnId);
      var account := AccountOf(accounts, userId);
      if account.None? {
        return Err(NotFound);
      }
      if UploadExceeds(account.value, req.data.value) {
        return Err(Forbidden);
      }
      if !stored || FileById(files, id).Some? {
        return Err(ServerError);
      }
      var f := NewFileRow(id, req.name.value, req.mimeType, req.data.value, parent, userId,
                          req.iv.value, req.encryptedKey.value);
      ghost var d := State();
      files := files + [f];
      accounts := AddUsed(accounts, userId, req.data.value);
      r := Ok(f);
      UploadKeepsBooks(d, userId, req, drawnId, stored, r, State());
    }

    /** `updateFile`; `content` is the decoded length of new content and `written` whether the disk write succeeded. */
    method UpdateFile(userId: string, id: string, content: Option<nat>, fileName: Option<string>,
                      parentId: Option<string>, written: bool) returns (r: Result<DriveFile>)
      requires Valid()
      modifies this
      ensures Valid()
      ensures FileUpdated(old(State()), userId, id, content, fileName, parentId, written, r, State())
    {
      if id == [] || userId == [] {
        return Err(BadRequest);
      }
      var existing := FileOf(files, id, userId);
      if existing.None? {
        return Err(NotFound);
      }
      var f := existing.value;
      ghost var d := State();
      if content.None? {
        var c := Rewrite(fileName, parentId, f.size);
        files := Update(files, id, Some(userId), c);
        r := Ok(Changed(f, c));
        assert State() == d.(files := Update(d.files, id, Some(userId), c));
      } else {
        var account := AccountOf(accounts, userId);
        if account.None? {
          return Err(NotFound);
        }
        if UpdateExceeds(account.value, f.size, content.value) {
          return Err(Forbidden);
        }
        if !written {
          return Err(ServerError);
        }
        var c := Rewrite(fileName, parentId, content.value);
        accounts := SetUsed(accounts, userId, NewUsage(account.value, f.size, content.value));
        files := Update(files, id, Some(userId), c);
        r := Ok(Changed(f, c));
        assert State() == d.(files := Update(d.files, id, Some(userId), c),
                             accounts := SetUsed(d.accounts, userId, NewUsage(account.value, f.size, content.value)));
      }
      UpdateKeepsBooks(d, userId, id, content, fileName, parentId, written, r, State());
    }

    /** `deleteFile`; `unlinked` is whether removing the stored file succeeded. */
    method DeleteFile(userId: string, id: string, unlinked: bool) returns (r: Result<nat>)
      requires Valid()
      modifies this
      ensures Valid()
      ensures FileDeleted(old(State()), userId, id, unlinked, r, State())
    {
      var existing := FileOf(files, id, userId);
      if existing.None? {
        return Err(NotFound);
      }
      if !unlinked {
        return Err(ServerError);
      }
      ghost var d := State();
      files := Without(files, id, Some(userId));
      accounts := AddUsed(accounts, userId, Refund(existing.value.size));
      r := Ok(existing.value.size);
      DeleteKeepsBooks(d, userId, id, unlinked, r, State());
    }

    /** `permanentDeleteFile`, with the failed deletion kept in `failed_deletions`. */
    method PermanentDeleteFile(userId: string, id: string, removed: bool) returns (r: Result<nat>)
      requires Valid()
      modifies this
      ensures Valid()
      ensures PermanentlyDeleted(old(State()), userId, id, removed, r, State())
    {
      if !IsUuid(id, AnyVersion) {
        return Err(BadRequest);
      }
      var existing := FileOf(files, id, userId);
      if existing.None? {
        return Err(NotFound);
      }
      ghost var d := State();
      if !removed {
        cleanup := MarkForCleanup(cleanup, id);
        r := Err(ServerError);
        assert State() == d.(cleanup := MarkForCleanup(d.cleanup, id));
      } else {
        files := Without(files, id, None);
        accounts := AddUsed(accounts, userId, Refund(existing.value.size));
        r := Ok(existing.value.size);
        assert State() == d.(files := Without(d.files, id, None),
                             accounts := AddUsed(d.accounts, userId, Refund(existing.value.size)));
      }
      PermanentDeleteKeepsBooks(d, userId, id, removed, r, State());
    }

    /** `copyFile`; `newId` is the UUID drawn for the copy and `copied` whether the disk copy succeeded. */
    method CopyFile(userId: string, id: string, newId: string, copied: bool) returns (r: Result<DriveFile>)
      requires Valid()
      modifies this
      ensures Valid()
      ensures FileCopied(old(State()), userId, id, newId, copied, r, State())
    {
      if !IsUuid(id, AnyVersion) {
        return Err(BadRequest);
      }
      var original := FileOf(files, id, userId);
      if original.None? {
        return Err(NotFound);
      }
      var f := original.value;
      var name := CopyName(files, userId, f.parentId, f.name);
      var account := AccountOf(accounts, userId);
      if account.None? {
        return Err(ServerError);
      }
      if CopyExceeds(account.value, f.size) {
        return Err(Forbidden);
      }
      if !copied || FileById(files, newId).Some? {
        return Err(ServerError);
      }
      var g := CopyRow(f, newId, name, userId);
      ghost var d := State();
      files := files + [g];
      accounts := AddUsed(accounts, userId, f.size);
      r := Ok(g);
      CopyKeepsBooks(d, userId, id, newId, copied, r, State());
    }

    /** `updateFileState`. */
    method UpdateFileState(userId: string, id: string, field: string, value: string, now: Time)
      returns (r: Result<DriveFile>)
      requires Valid()
      modifies this
      ensures Valid()
      ensures StateUpdated(old(State()), userId, id, field, value, now, r, State())
    {
      var fl := ParseStateField(field);
      if fl.None? {
        return Err(BadRequest);
      }
      var c := SetState(fl.value, Lower(value) == "true", now);
      var existing := FileOf(files, id, userId);
      if existing.None? {
        return Err(NotFound);
      }
      ghost var d := State();
      files := Update(files, id, Some(userId), c);
      r := Ok(Changed(existing.value, c));
      StateKeepsBooks(d, userId, id, field, value, now, r, State());
    }

    /** `renameFile`. */
    method RenameFile(userId: string, id: string, name: Option<string>) returns (r: Result<string>)
      requires Valid()
      modifies this
      ensures Valid()
      ensures FileRenamed(old(State()), userId, id, name, r, State())
    {
      var newName := RequestedName(name);
      if !ValidFileName(newName) {
        return Err(BadRequest);
      }
      var existing := FileById(files, id);
      if existing.None? {
        return Err(NotFound);
      }
      if existing.value.ownerId != userId {
        return Err(Forbidden);
      }
      if RenameClash(files, userId, existing.value.parentId, id, newName) {
        return Err(Conflict);
      }
      ghost var d := State();
      RenameSucceeds(d, userId, id, name, existing.value);
      RenameKeepsBooks(d, userId, id, name, Ok(newName), d.(files := Update(files, id, None, Rename(newName))));
      files := Update(files, id, None, Rename(newName));
      r := Ok(newName);
    }
  }

  // ---------------------------------------------------------------------
  // Bookkeeping: every handler keeps `used_storage` equal to the files' total
  // ---------------------------------------------------------------------

  lemma AppendKeepsIds(files: seq<DriveFile>, f: DriveFile)
    requires UniqueFileIds(files) && FileById(files, f.id).None?
    ensures UniqueFileIds(files + [f])
  {
  }

  lemma UpdateKeepsIds(files: seq<DriveFile>, id: string, owner: Option<string>, c: Change)
    requires UniqueFileIds(files)
    ensures UniqueFileIds(Update(files, id, owner, c))
  {
  }

  lemma {:induction false} WithoutKeepsIds(files: seq<DriveFile>, id: string, owner: Option<string>)
    requires UniqueFileIds(files)
    ensures UniqueFileIds(Without(files, id, owner))
    decreases |files|
  {
    if files != [] {
      var rest := files[1..];
      UniqueTail(files);
      WithoutKeepsIds(rest, id, owner);
      var w := Without(rest, id, owner);
      assert forall g :: g in w ==> g in rest;
      assert forall g :: g in rest ==> g.id != files[0].id;
    }
  }

  /** A successful upload charges exactly the uploaded size and keeps the books. */
  lemma UploadKeepsBooks(d: Drive, userId: string, req: UploadRequest, drawnId: string, stored: bool,
                         r: Result<DriveFile>, d': Drive)
    requires Consistent(d)
    requires Uploaded(d, userId, req, drawnId, stored, r, d')
    ensures Consistent(d')
    ensures r.Ok? ==> r.value.size == req.data.value && r.value.ownerId == userId
                      && Usage(d'.files, userId) == Usage(d.files, userId) + r.value.size
  {
    if r.Ok? {
      var f := r.value;
      AppendKeepsIds(d.files, f);
      forall v ensures Usage(d'.files, v) == Usage(d.files, v) + (if v == userId then f.size else 0) {
        UsageAppend(d.files, f, v);
      }
      TracksAfterAdd(d.accounts, d.files, d'.files, userId, f.size);
    }
  }

  /** A content update charges the difference in size; a metadata update charges nothing. */
  lemma UpdateKeepsBooks(d: Drive, userId: string, id: string, content: Option<nat>, fileName: Option<string>,
                         parentId: Option<string>, written: bool, r: Result<DriveFile>, d': Drive)
    requires Consistent(d)
    requires FileUpdated(d, userId, id, content, fileName, parentId, written, r, d')
    ensures Consistent(d')
    ensures r.Ok? && content.None? ==> d'.accounts == d.accounts && r.value.size == FileOf(d.files, id, userId).value.size
    ensures r.Ok? && content.Some? ==> r.value.size == content.value
  {
    if r.Ok? {
      var f := FileOf(d.files, id, userId).value;
      if content.None? {
        var c := Rewrite(fileName, parentId, f.size);
        assert d' == d.(files := Update(d.files, id, Some(userId), c));
        RewriteUsage(d.files, id, userId, f, c);
        assert forall v :: Usage(d'.files, v) == Usage(d.files, v);
      } else {
        var a := AccountOf(d.accounts, userId).value;
        var c := Rewrite(fileName, parentId, content.value);
        assert d' == d.(files := Update(d.files, id, Some(userId), c),
                        accounts := SetUsed(d.accounts, userId, NewUsage(a, f.size, content.value)));
        ContentRewriteKeepsBooks(d, userId, id, f, a, c);
      }
    } else {
      assert d' == d;
    }
  }

  /** Storing new content and the owner's recomputed total keeps the books. */
  lemma ContentRewriteKeepsBooks(d: Drive, userId: string, id: string, f: DriveFile, a: Account, c: Change)
    requires Consistent(d) && FileOf(d.files, id, userId) == Some(f) && AccountOf(d.accounts, userId) == Some(a)
    requires c.Rewrite?
    ensures Consistent(d.(files := Update(d.files, id, Some(userId), c),
                          accounts := SetUsed(d.accounts, userId, NewUsage(a, f.size, c.size))))
  {
    var files' := Update(d.files, id, Some(userId), c);
    RewriteUsage(d.files, id, userId, f, c);
    assert a.used == Usage(d.files, userId);
    assert NewUsage(a, f.size, c.size) == Usage(files', userId);
    TracksAfterSet(d.accounts, d.files, files', userId);
  }

  /** Rewriting the caller's file moves its owner's total by the change in size and nobody else's. */
  lemma RewriteUsage(files: seq<DriveFile>, id: string, userId: string, f: DriveFile, c: Change)
    requires UniqueFileIds(files) && FileOf(files, id, userId) == Some(f) && c.Rewrite?
    ensures UniqueFileIds(Update(files, id, Some(userId), c))
    ensures forall v :: Usage(Update(files, id, Some(userId), c), v) + (if v == userId then f.size else 0)
                        == Usage(files, v) + (if v == userId then c.size else 0)
  {
    UpdateKeepsIds(files, id, Some(userId), c);
    forall v ensures Usage(Update(files, id, Some(userId), c), v) + (if v == userId then f.size else 0)
                     == Usage(files, v) + (if v == userId then c.size else 0) {
      UsageUpdate(files, id, Some(userId), c, f, v);
    }
  }

  /** A delete refunds exactly the deleted file's size. */
  lemma DeleteKeepsBooks(d: Drive, userId: string, id: string, unlinked: bool, r: Result<nat>, d': Drive)
    requires Consistent(d)
    requires FileDeleted(d, userId, id, unlinked, r, d')
    ensures Consistent(d')
    ensures r.Ok? ==> Usage(d'.files, userId) + r.value == Usage(d.files, userId)
                      && FileOf(d'.files, id, userId).None?
  {
    if r.Ok? {
      var f := FileOf(d.files, id, userId).value;
      WithoutKeepsIds(d.files, id, Some(userId));
      forall v ensures Usage(d'.files, v) + (if v == userId then f.size else 0) == Usage(d.files, v) {
        UsageWithout(d.files, id, Some(userId), f, v);
      }
      TracksAfterAdd(d.accounts, d.files, d'.files, userId, Refund(f.size));
      assert forall g :: g in d'.files ==> !Hit(g, id, Some(userId));
    }
  }

  /** A permanent delete refunds the file's size, and a failed one changes only `failed_deletions`. */
  lemma PermanentDeleteKeepsBooks(d: Drive, userId: string, id: string, removed: bool, r: Result<nat>, d': Drive)
    requires Consistent(d)
    requires PermanentlyDeleted(d, userId, id, removed, r, d')
    ensures Consistent(d')
    ensures d'.files == d.files || r.Ok?
    ensures r.Ok? ==> Usage(d'.files, userId) + r.value == Usage(d.files, userId) && FileById(d'.files, id).None?
  {
    if r.Ok? {
      var f := FileOf(d.files, id, userId).value;
      WithoutKeepsIds(d.files, id, None);
      forall v ensures Usage(d'.files, v) + (if v == userId then f.size else 0) == Usage(d.files, v) {
        UsageWithout(d.files, id, None, f, v);
      }
      TracksAfterAdd(d.accounts, d.files, d'.files, userId, Refund(f.size));
      assert forall g :: g in d'.files ==> !Hit(g, id, None);
    }
  }

  /** A copy charges exactly the original's size. */
  lemma CopyKeepsBooks(d: Drive, userId: string, id: string, newId: string, copied: bool,
                       r: Result<DriveFile>, d': Drive)
    requires Consistent(d)
    requires FileCopied(d, userId, id, newId, copied, r, d')
    ensures Consistent(d')
    ensures r.Ok? ==> r.value.size == FileOf(d.files, id, userId).value.size
                      && Usage(d'.files, userId) == Usage(d.files, userId) + r.value.size
  {
    if r.Ok? {
      var g := r.value;
      AppendKeepsIds(d.files, g);
      forall v ensures Usage(d'.files, v) == Usage(d.files, v) + (if v == userId then g.size else 0) {
        UsageAppend(d.files, g, v);
      }
      TracksAfterAdd(d.accounts, d.files, d'.files, userId, g.size);
    }
  }

  lemma StateKeepsBooks(d: Drive, userId: string, id: string, field: string, value: string, now: Time,
                        r: Result<DriveFile>, d': Drive)
    requires Consistent(d)
    requires StateUpdated(d, userId, id, field, value, now, r, d')
    ensures Consistent(d')
    ensures d'.accounts == d.accounts
  {
    if r.Ok? {
      var c := SetState(ParseStateField(field).value, Lower(value) == "true", now);
      assert d' == d.(files := Update(d.files, id, Some(userId), c));
      SizeKeepingUpdate(d, id, Some(userId), c);
    } else {
      assert d' == d;
    }
  }

  lemma RenameKeepsBooks(d: Drive, userId: string, id: string, name: Option<string>, r: Result<string>, d': Drive)
    requires Consistent(d)
    requires FileRenamed(d, userId, id, name, r, d')
    ensures Consistent(d')
    ensures d'.accounts == d.accounts
  {
    if r.Ok? {
      var c := Rename(r.value);
      assert d' == d.(files := Update(d.files, id, None, c));
      SizeKeepingUpdate(d, id, None, c);
    } else {
      assert d' == d;
    }
  }

  /** A valid name for the caller's file that clashes with no sibling is stored. */
  lemma RenameSucceeds(d: Drive, userId: string, id: string, name: Option<string>, f: DriveFile)
    requires ValidFileName(RequestedName(name)) && FileById(d.files, id) == Some(f) && f.ownerId == userId
    requires !RenameClash(d.files, userId, f.parentId, id, RequestedName(name))
    ensures var newName := RequestedName(name);
            FileRenamed(d, userId, id, name, Ok(newName), d.(files := Update(d.files, id, None, Rename(newName))))
  {
  }

  /** A change that keeps every size keeps the books. */
  lemma SizeKeepingUpdate(d: Drive, id: string, owner: Option<string>, c: Change)
    requires Consistent(d) && !c.Rewrite?
    ensures Consistent(d.(files := Update(d.files, id, owner, c)))
  {
    var files' := Update(d.files, id, owner, c);
    UpdateKeepsIds(d.files, id, owner, c);
    forall v ensures Usage(files', v) == Usage(d.files, v) {
      UsageKeptBy(d.files, id, owner, c, v);
    }
  }
}
