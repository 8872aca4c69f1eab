/**
 * The e-mail controller's handlers as methods of one class that owns the
 * `users`, `folders` and `mailboxes` tables. Each handler either fails with
 * the status it answers and leaves the tables as they were (a failed
 * transaction rolls back), or commits the statements it runs.
 */
module MailStore {
  import opened Common
  import opened Accounts
  import opened MailRows
  import opened FolderRules
  import opened MailCompose

  /** `req.user`: the id and address carried by the token; an absent value is "". */
  datatype Caller = Caller(userId: string, email: string)

  /** A single-message or single-thread move: the target folder and `rowCount`. */
  datatype Moved = Moved(folderId: Id, count: nat)

  /** A batch move: the target folder, `rowCount` and the moved row ids grouped by thread. */
  datatype BatchMove = BatchMove(folderId: Id, count: nat, byThread: map<string, seq<Id>>)

  /** The `restorationStats` of a per-thread restore, with `emailsRestored`. */
  datatype RestoreStats = RestoreStats(restored: nat, toInbox: nat, toSent: nat, toDrafts: nat)

  /** A grouped COUNT(*) response: the total e-mails and the per-thread counts. */
  datatype Counted = Counted(total: nat, groups: seq<ThreadCount>)

  /** `OwnedKey(true, ..)` is `thread_id = $1 AND user_id = $2`, otherwise `message_id = $1 AND user_id = $2`. */
  function OwnedKey(byThread: bool, key: string, userId: string): Where
  {
    if byThread then ThreadOfUser(key, userId) else MessageOfUser(key, userId)
  }

  /**
   * Moving one message or one thread of the caller's into a system folder:
   * 400 without an id or address, 404 for an unknown address, 500 without
   * the folder, 404 when no row matches; otherwise both folder columns of
   * every matching row are set.
   */
  ghost predicate MovedOwned(users: seq<User>, folders: seq<Folder>, before: seq<Message>, after: seq<Message>,
                             email: string, key: string, byThread: bool, kind: string, name: string,
                             r: Result<Moved>)
  {
    if key == [] || email == [] then r == Err(BadRequest) && after == before
    else match UserByEmail(users, email)
      case None => r == Err(NotFound) && after == before
      case Some(u) =>
        (match FirstFolder(folders, u.id, kind)
         case None => r == Err(ServerError) && after == before
         case Some(fid) =>
           var w := OwnedKey(byThread, key, u.id);
           if CountWhere(before, w) == 0 then r == Err(NotFound) && after == before
           else r == Ok(Moved(fid, CountWhere(before, w)))
                && after == UpdateWhere(before, w, Relocate(Some(name), Some(fid))))
  }

  /**
   * A per-thread restore from the folders of type `source`: the rows of the
   * thread owned by the caller and sitting in such a folder each go back
   * to the folder their type and sender indicate; no other row changes.
   */
  ghost predicate ThreadRestored(users: seq<User>, folders: seq<Folder>, before: seq<Message>, after: seq<Message>,
                                 email: string, threadId: string, source: string, r: Result<RestoreStats>)
  {
    if threadId == [] || email == [] then r == Err(BadRequest) && after == before
    else match UserByEmail(users, email)
      case None => r == Err(NotFound) && after == before
      case Some(u) =>
        var w := ThreadOfUserInAny(threadId, u.id, KindIds(folders, source));
        var check := Selected(before, w);
        if check == [] then r == Err(NotFound) && after == before
        else r == Ok(RestoreStats(|check|, OriginCount(check, email, Inbox), OriginCount(check, email, Sent),
                                  OriginCount(check, email, Drafts)))
             && after == RestoreWhere(before, w, email, SystemFolderMap(folders, u.id))
  }

  /**
   * The verify-then-update shape of the batch moves: when some requested
   * id was not found nothing changes and exactly those ids are reported;
   * otherwise every row `w` selects is moved.
   */
  ghost predicate BatchMoved(before: seq<Message>, after: seq<Message>, ids: seq<string>, w: Where,
                             found: set<string>, fid: Id, name: string, r: Result<BatchMove>)
  {
    var missing := Absent(ids, found);
    if missing != [] then r == Err(MissingIds(missing)) && after == before
    else r == Ok(BatchMove(fid, CountWhere(before, w), GroupByThread(Returning(Selected(before, w)))))
         && after == UpdateWhere(before, w, Relocate(Some(name), Some(fid)))
  }

  /** The display name a move to a named folder writes: the name for a custom folder, the type otherwise. */
  function TargetName(f: Folder, toFolder: string): string
  {
    if f.kind == "custom" then toFolder else f.kind
  }

  /** A batch message move: the target folder, `rowCount` and `resultsByMessage`. */
  datatype MessagesMoved = MessagesMoved(folderId: Id, count: nat, byMessage: map<string, MessageRef>)

  /** A batch read-status change: `rowCount` and the changed row ids grouped by thread. */
  datatype ThreadsUpdated = ThreadsUpdated(count: nat, byThread: map<string, seq<Id>>)

  /** A saved draft: whether a row was created, and the message and thread ids answered. */
  datatype SavedDraft = SavedDraft(created: bool, messageId: string, threadId: string)

  /** A stored outgoing message: its message id and thread. */
  datatype Stored = Stored(messageId: string, threadId: string)

  /**
   * The verify-then-update shape of the batch restores: when some requested
   * id was not found the transaction rolls back, otherwise the update is
   * committed.
   */
  ghost predicate AllOrNothing(before: seq<Message>, after: seq<Message>, missing: seq<string>, w: Where, a: Assign)
  {
    if missing != [] then after == before else after == UpdateWhere(before, w, a)
  }

  /**
   * `saveDraft`: 401 for an unknown caller, 400 for a draft with neither
   * content nor recipient (the Drafts folder created on the way is rolled
   * back too); otherwise the caller's existing draft with that message id
   * is rewritten and put back into the Drafts folder, or a new draft row is
   * inserted.
   */
  ghost predicate DraftSaved(users: seq<User>, folders: seq<Folder>, folders': seq<Folder>,
                             before: seq<Message>, after: seq<Message>, userId: string, d: DraftRequest,
                             newMessageId: string, newThreadId: string, r: Result<SavedDraft>)
  {
    match UserById(users, userId)
    case None => r == Err(Unauthorized) && folders' == folders && after == before
    case Some(u) =>
      if !HasDraftText(d) then r == Err(BadRequest) && folders' == folders && after == before
      else
        var existing := FirstFolder(folders, u.id, "drafts");
        var draftsId := if existing.Some? then existing.value else NextFolderId(folders);
        folders' == (if existing.Some? then folders else folders + [DraftsFolder(draftsId, u.id)])
        && DraftWritten(before, after, u, draftsId, d, newMessageId, newThreadId, r)
  }

  /**
   * The row a `saveDraft` writes once the Drafts folder `draftsId` is
   * known: the caller's draft with the request's message id is rewritten
   * (and refiled when it sits elsewhere), or a new draft row is inserted.
   */
  ghost predicate DraftWritten(before: seq<Message>, after: seq<Message>, u: User, draftsId: Id, d: DraftRequest,
                               newMessageId: string, newThreadId: string, r: Result<SavedDraft>)
  {
    var prior := if d.messageId == [] then [] else Selected(before, DraftOfUser(d.messageId, u.id));
    if prior != [] then
      var edited := UpdateWhere(before, Row(prior[0].id), EditDraft(NullIfEmpty(d.to), DraftContent(d)));
      r == Ok(SavedDraft(false, d.messageId, if prior[0].threadId != [] then prior[0].threadId else d.threadId))
      && after == (if prior[0].folderId != Some(draftsId) then UpdateWhere(edited, Row(prior[0].id), Refile(draftsId))
                   else edited)
    else
      var thread := if d.threadId != [] then d.threadId else newThreadId;
      r == Ok(SavedDraft(true, newMessageId, thread))
      && after == before + [NewDraftRow(NextRowId(before), u, draftsId, thread, newMessageId, d)]
  }

  /**
   * `storeEmailInDb`: 404 for an unknown caller, 500 without a Sent
   * folder. A saved draft with the request's message id is turned into a
   * sent message; when no draft with a thread was found, a sent row is
   * inserted in the reply's thread or a fresh one.
   */
  ghost predicate EmailStored(users: seq<User>, folders: seq<Folder>, before: seq<Message>, after: seq<Message>,
                              userId: string, req: SendRequest, prepared: Content,
                              newMessageId: string, newThreadId: string, r: Result<Stored>)
  {
    match UserById(users, userId)
    case None => r == Err(NotFound) && after == before
    case Some(u) =>
      (match FirstFolder(folders, u.id, "sent")
       case None => r == Err(ServerError) && after == before
       case Some(sentId) =>
         var c := SentContent(req, prepared);
         var messageId := if req.messageId != [] then req.messageId else newMessageId;
         var draft := if req.messageId == [] then [] else Selected(before, DraftOfUser(req.messageId, u.id));
         var updated := if draft != [] then UpdateWhere(before, MessageOfUser(req.messageId, u.id), SendDraft(sentId, req.to, c))
                        else before;
         if draft != [] && draft[0].threadId != [] then
           r == Ok(Stored(messageId, draft[0].threadId)) && after == updated
         else
           var thread := ReplyThread(updated, req, u.id, newThreadId);
           r == Ok(Stored(messageId, thread))
           && after == updated + [SentRow(NextRowId(updated), u, sentId, thread, messageId, req, c)])
  }

  class MailDb {
    var users: seq<User>
    var folders: seq<Folder>
    var mailboxes: seq<Message>

    /** `mailboxes.id` is a primary key. */
    ghost predicate Valid()
      reads this
    {
      UniqueRowIds(mailboxes)
    }

    constructor (users: seq<User>, folders: seq<Folder>, mailboxes: seq<Message>)
      requires UniqueRowIds(mailboxes)
      ensures Valid()
      ensures this.users == users && this.folders == folders && this.mailboxes == mailboxes
    {
      this.users := users;
      this.folders := folders;
      this.mailboxes := mailboxes;
    }

    // -------------------------------------------------------------------
    // Moves of one message or one thread
    // -------------------------------------------------------------------

    /** The shared body of the single-message and single-thread moves. */
    method MoveOwned(email: string, key: string, byThread: bool, kind: string, name: string)
      returns (r: Result<Moved>)
      requires Valid()
      modifies this
      ensures Valid() && users == old(users) && folders == old(folders)
      ensures MovedOwned(old(users), old(folders), old(mailboxes), mailboxes, email, key, byThread, kind, name, r)
    {
      if key == [] || email == [] {
        return Err(BadRequest);
      }
      var user := UserByEmail(users, email);
      if user.None? {
        return Err(NotFound);
      }
      var folderId := FirstFolder(folders, user.value.id, kind);
      if folderId.None? {
        return Err(ServerError);
      }
      var w := OwnedKey(byThread, key, user.value.id);
      var count := CountWhere(mailboxes, w);
      if count == 0 {
        return Err(NotFound);
      }
      UpdateKeepsRowIds(mailboxes, w, Relocate(Some(name), Some(folderId.value)));
      mailboxes := UpdateWhere(mailboxes, w, Relocate(Some(name), Some(folderId.value)));
      r := Ok(Moved(folderId.value, count));
    }

    /** `moveEmailToSpam`. */
    method MoveEmailToSpam(caller: Caller, messageId: string) returns (r: Result<Moved>)
      requires Valid()
      modifies this
      ensures Valid() && users == old(users) && folders == old(folders)
      ensures MovedOwned(old(users), old(folders), old(mailboxes), mailboxes,
                         caller.email, messageId, false, "spam", "Spam", r)
    {
      r := MoveOwned(caller.email, messageId, false, "spam", "Spam");
    }

    /** `moveToTrash`. */
    method MoveToTrash(caller: Caller, messageId: string) returns (r: Result<Moved>)
      requires Valid()
      modifies this
      ensures Valid() && users == old(users) && folders == old(folders)
      ensures MovedOwned(old(users), old(folders), old(mailboxes), mailboxes,
                         caller.email, messageId, false, "trash", "Trash", r)
    {
      r := MoveOwned(caller.email, messageId, false, "trash", "Trash");
    }

    /** `moveThreadToTrash`. */
    method MoveThreadToTrash(caller: Caller, threadId: string) returns (r: Result<Moved>)
      requires Valid()
      modifies this
      ensures Valid() && users == old(users) && folders == old(folders)
      ensures MovedOwned(old(users), old(folders), old(mailboxes), mailboxes,
                         caller.email, threadId, true, "trash", "Trash", r)
    {
      r := MoveOwned(caller.email, threadId, true, "trash", "Trash");
    }

    /** `moveMessageToArchive`: the existence check before the update answers 404 exactly when the update would match nothing. */
    method MoveMessageToArchive(caller: Caller, messageId: string) returns (r: Result<Moved>)
      requires Valid()
      modifies this
      ensures Valid() && users == old(users) && folders == old(folders)
      ensures MovedOwned(old(users), old(folders), old(mailboxes), mailboxes,
                         caller.email, messageId, false, "archive", "Archive", r)
    {
      r := MoveOwned(caller.email, messageId, false, "archive", "Archive");
    }

    /** `moveThreadToArchive`. */
    method MoveThreadToArchive(caller: Caller, threadId: string) returns (r: Result<Moved>)
      requires Valid()
      modifies this
      ensures Valid() && users == old(users) && folders == old(folders)
      ensures MovedOwned(old(users), old(folders), old(mailboxes), mailboxes,
                         caller.email, threadId, true, "archive", "Archive", r)
    {
      r := MoveOwned(caller.email, threadId, true, "archive", "Archive");
    }

    /**
     * `moveThreadToSpam`: scoped by address rather than by owner, and only
     * the display name is written; `folder_id` keeps its old value.
     */
    method MoveThreadToSpam(caller: Caller, threadId: string) returns (r: Result<nat>)
      requires Valid()
      modifies this
      ensures Valid() && users == old(users) && folders == old(folders)
      ensures threadId == [] || caller.email == [] ==> r == Err(BadRequest) && mailboxes == old(mailboxes)
      ensures threadId != [] && caller.email != [] ==>
                var w := ThreadOfParty(threadId, caller.email);
                if CountWhere(old(mailboxes), w) == 0 then r == Err(NotFound) && mailboxes == old(mailboxes)
                else r == Ok(CountWhere(old(mailboxes), w)) && mailboxes == UpdateWhere(old(mailboxes), w, Rename("Spam"))
    {
      if threadId == [] || caller.email == [] {
        return Err(BadRequest);
      }
      var w := ThreadOfParty(threadId, caller.email);
      var count := CountWhere(mailboxes, w);
      if count == 0 {
        return Err(NotFound);
      }
      UpdateKeepsRowIds(mailboxes, w, Rename("Spam"));
      mailboxes := UpdateWhere(mailboxes, w, Rename("Spam"));
      r := Ok(count);
    }

    // -------------------------------------------------------------------
    // Restores of one thread or one message
    // -------------------------------------------------------------------

    /**
     * The shared body of `restoreThreadFromTrash` and
     * `restoreThreadFromArchive`: one UPDATE per selected row, counting
     * where each one goes.
     */
    method RestoreThreadFrom(caller: Caller, threadId: string, source: string) returns (r: Result<RestoreStats>)
      requires Valid()
      modifies this
      ensures Valid() && users == old(users) && folders == old(folders)
      ensures ThreadRestored(old(users), old(folders), old(mailboxes), mailboxes, caller.email, threadId, source, r)
    {
      if threadId == [] || caller.email == [] {
        return Err(BadRequest);
      }
      var user := UserByEmail(users, caller.email);
      if user.None? {
        return Err(NotFound);
      }
      var userId := user.value.id;
      var w := ThreadOfUserInAny(threadId, userId, KindIds(folders, source));
      var check := Selected(mailboxes, w);
      if check == [] {
        return Err(NotFound);
      }
      var fm := SystemFolderMap(folders, userId);
      ghost var before := mailboxes;
      var stats := RestoreRows(check, userId, caller.email, fm);
      RestoreLoopDone(before, w, caller.email, fm);
      RestoreKeepsRowIds(before, w, caller.email, fm);
      r := Ok(stats);
    }

    /**
     * The loop of a per-thread restore: one `UPDATE ... WHERE id = $1 AND
     * user_id = $2` per checked row, and a counter per destination.
     */
    method RestoreRows(check: seq<Message>, userId: string, callerEmail: string, fm: FolderMap)
      returns (stats: RestoreStats)
      requires Valid()
      requires forall m :: m in check ==> m in mailboxes && m.userId == userId
      modifies this
      ensures users == old(users) && folders == old(folders)
      ensures mailboxes == RestoredFor(old(mailboxes), check, callerEmail, fm)
      ensures stats == RestoreStats(|check|, OriginCount(check, callerEmail, Inbox),
                                    OriginCount(check, callerEmail, Sent), OriginCount(check, callerEmail, Drafts))
    {
      ghost var before := mailboxes;
      RestoredForNothing(before, callerEmail, fm);
      var toInbox, toSent, toDrafts := 0, 0, 0;
      var i := 0;
      while i < |check|
        invariant 0 <= i <= |check|
        invariant users == old(users) && folders == old(folders)
        invariant mailboxes == RestoredFor(before, check[..i], callerEmail, fm)
        invariant toInbox == OriginCount(check[..i], callerEmail, Inbox)
        invariant toSent == OriginCount(check[..i], callerEmail, Sent)
        invariant toDrafts == OriginCount(check[..i], callerEmail, Drafts)
      {
        var row := check[i];
        assert row in check;
        RestoreNext(before, check, i, userId, callerEmail, fm);
        mailboxes := UpdateWhere(mailboxes, RowOfUser(row.id, userId), RestoreAssign(row, callerEmail, fm));
        toInbox, toSent, toDrafts := CountOrigin(check, i, callerEmail, toInbox, toSent, toDrafts);
        i := i + 1;
      }
      assert check[..i] == check;
      stats := RestoreStats(|check|, toInbox, toSent, toDrafts);
    }

    /** One `restorationStats` increment: the counter of the origin inferred for `check[i]` goes up by one. */
    static method CountOrigin(check: seq<Message>, i: nat, callerEmail: string, toInbox: nat, toSent: nat, toDrafts: nat)
      returns (inbox': nat, sent': nat, drafts': nat)
      requires i < |check|
      requires toInbox == OriginCount(check[..i], callerEmail, Inbox)
      requires toSent == OriginCount(check[..i], callerEmail, Sent)
      requires toDrafts == OriginCount(check[..i], callerEmail, Drafts)
      ensures inbox' == OriginCount(check[..i + 1], callerEmail, Inbox)
      ensures sent' == OriginCount(check[..i + 1], callerEmail, Sent)
      ensures drafts' == OriginCount(check[..i + 1], callerEmail, Drafts)
    {
      var row := check[i];
      var o := RestoreOrigin(row.messageType, row.fromEmail, callerEmail);
      OriginCountsStep(check, i, callerEmail, o);
      inbox', sent', drafts' := toInbox, toSent, toDrafts;
      if o == Sent {
        sent' := sent' + 1;
      } else if o == Drafts {
        drafts' := drafts' + 1;
      } else {
        inbox' := inbox' + 1;
      }
    }

    /** `restoreThreadFromTrash`. */
    method RestoreThreadFromTrash(caller: Caller, threadId: string) returns (r: Result<RestoreStats>)
      requires Valid()
      modifies this
      ensures Valid() && users == old(users) && folders == old(folders)
      ensures ThreadRestored(old(users), old(folders), old(mailboxes), mailboxes, caller.email, threadId, "trash", r)
    {
      r := RestoreThreadFrom(caller, threadId, "trash");
    }

    /** `restoreThreadFromArchive`. */
    method RestoreThreadFromArchive(caller: Caller, threadId: string) returns (r: Result<RestoreStats>)
      requires Valid()
      modifies this
      ensures Valid() && users == old(users) && folders == old(folders)
      ensures ThreadRestored(old(users), old(folders), old(mailboxes), mailboxes, caller.email, threadId, "archive", r)
    {
      r := RestoreThreadFrom(caller, threadId, "archive");
    }

    /**
     * `restoreFromArchive`: the origin is inferred from the first archived
     * copy, the destination is the first folder of that type, and the
     * update then reaches every copy of the message the caller owns,
     * archived or not.
     */
    method RestoreFromArchive(caller: Caller, messageId: string) returns (r: Result<Id>)
      requires Valid()
      modifies this
      ensures Valid() && users == old(users) && folders == old(folders)
      ensures messageId == [] || caller.email == [] ==> r == Err(BadRequest) && mailboxes == old(mailboxes)
      ensures messageId != [] && caller.email != [] && UserByEmail(old(users), caller.email).None? ==>
                r == Err(NotFound) && mailboxes == old(mailboxes)
      ensures messageId != [] && caller.email != [] && UserByEmail(old(users), caller.email).Some? ==>
                var uid := UserByEmail(old(users), caller.email).value.id;
                var check := Selected(old(mailboxes), MessageOfUserInAny(messageId, uid, KindIds(old(folders), "archive")));
                if check == [] then r == Err(NotFound) && mailboxes == old(mailboxes)
                else
                  var o := RestoreOrigin(check[0].messageType, check[0].fromEmail, caller.email);
                  match FirstFolder(old(folders), uid, OriginKind(o))
                  case None => r == Err(ServerError) && mailboxes == old(mailboxes)
                  case Some(fid) =>
                    r == Ok(fid)
                    && mailboxes == UpdateWhere(old(mailboxes), MessageOfUser(messageId, uid), Relocate(Some(OriginName(o)), Some(fid)))
    {
      if messageId == [] || caller.email == [] {
        return Err(BadRequest);
      }
      var user := UserByEmail(users, caller.email);
      if user.None? {
        return Err(NotFound);
      }
      var userId := user.value.id;
      var check := Selected(mailboxes, MessageOfUserInAny(messageId, userId, KindIds(folders, "archive")));
      if check == [] {
        return Err(NotFound);
      }
      var o := RestoreOrigin(check[0].messageType, check[0].fromEmail, caller.email);
      var folderId := FirstFolder(folders, userId, OriginKind(o));
      if folderId.None? {
        return Err(ServerError);
      }
      var a := Relocate(Some(OriginName(o)), Some(folderId.value));
      UpdateKeepsRowIds(mailboxes, MessageOfUser(messageId, userId), a);
      mailboxes := UpdateWhere(mailboxes, MessageOfUser(messageId, userId), a);
      r := Ok(folderId.value);
    }

    // -------------------------------------------------------------------
    // Batch moves and restores
    // -------------------------------------------------------------------

    /**
     * The verify-then-update step of the batch handlers: the update is
     * committed only when every requested id was found.
     */
    method UpdateUnlessMissing(ids: seq<string>, found: set<string>, w: Where, a: Assign) returns (missing: seq<string>)
      requires Valid()
      modifies this
      ensures Valid() && users == old(users) && folders == old(folders)
      ensures missing == Absent(ids, found)
      ensures AllOrNothing(old(mailboxes), mailboxes, missing, w, a)
    {
      missing := Absent(ids, found);
      if missing == [] {
        UpdateKeepsRowIds(mailboxes, w, a);
        mailboxes := UpdateWhere(mailboxes, w, a);
      }
    }

    /**
     * `moveThreadsToArchive`: the Archive folder is looked up for the id in
     * the token, the threads for the owner of the address in the token.
     */
    method MoveThreadsToArchive(caller: Caller, threadIds: Option<seq<string>>) returns (r: Result<BatchMove>)
      requires Valid()
      modifies this
      ensures Valid() && users == old(users) && folders == old(folders)
      ensures threadIds.None? || threadIds.value == [] || caller.email == [] ==>
                r == Err(BadRequest) && mailboxes == old(mailboxes)
      ensures threadIds.Some? && threadIds.value != [] && caller.email != [] ==>
                match UserByEmail(old(users), caller.email)
                case None => r == Err(NotFound) && mailboxes == old(mailboxes)
                case Some(u) =>
                  (match FirstFolder(old(folders), caller.userId, "archive")
                   case None => r == Err(ServerError) && mailboxes == old(mailboxes)
                   case Some(fid) =>
                     var w := ThreadsOfUser(threadIds.value, u.id);
                     BatchMoved(old(mailboxes), mailboxes, threadIds.value, w,
                                ThreadIds(Selected(old(mailboxes), w)), fid, "Archive", r))
    {
      if threadIds.None? || threadIds.value == [] || caller.email == [] {
        return Err(BadRequest);
      }
      var user := UserByEmail(users, caller.email);
      if user.None? {
        return Err(NotFound);
      }
      var archive := FirstFolder(folders, caller.userId, "archive");
      if archive.None? {
        return Err(ServerError);
      }
      var w := ThreadsOfUser(threadIds.value, user.value.id);
      var moved := Selected(mailboxes, w);
      var missing := UpdateUnlessMissing(threadIds.value, ThreadIds(moved), w, Relocate(Some("Archive"), Some(archive.value)));
      if missing != [] {
        return Err(MissingIds(missing));
      }
      r := Ok(BatchMove(archive.value, |moved|, GroupByThread(Returning(moved))));
    }

    /**
     * `moveThreadsToFolder`: the target is the caller's first folder whose
     * name or type is `toFolder`; a system folder's rows get its type as
     * their display name.
     */
    method MoveThreadsToFolder(caller: Caller, threadIds: Option<seq<string>>, toFolder: string)
      returns (r: Result<BatchMove>)
      requires Valid()
      modifies this
      ensures Valid() && users == old(users) && folders == old(folders)
      ensures threadIds.None? || threadIds.value == [] || caller.email == [] || toFolder == [] ==>
                r == Err(BadRequest) && mailboxes == old(mailboxes)
      ensures threadIds.Some? && threadIds.value != [] && caller.email != [] && toFolder != [] ==>
                match UserByEmail(old(users), caller.email)
                case None => r == Err(NotFound) && mailboxes == old(mailboxes)
                case Some(u) =>
                  (match FolderByNameOrType(old(folders), u.id, toFolder)
                   case None => r == Err(NotFound) && mailboxes == old(mailboxes)
                   case Some(f) =>
                     var w := ThreadsOfUser(threadIds.value, u.id);
                     BatchMoved(old(mailboxes), mailboxes, threadIds.value, w,
                                ThreadIds(Selected(old(mailboxes), w)), f.folderId, TargetName(f, toFolder), r))
    {
      if threadIds.None? || threadIds.value == [] || caller.email == [] {
        return Err(BadRequest);
      }
      if toFolder == [] {
        return Err(BadRequest);
      }
      var user := UserByEmail(users, caller.email);
      if user.None? {
        return Err(NotFound);
      }
      var target := FolderByNameOrType(folders, user.value.id, toFolder);
      if target.None? {
        return Err(NotFound);
      }
      var f := target.value;
      var w := ThreadsOfUser(threadIds.value, user.value.id);
      var moved := Selected(mailboxes, w);
      var missing := UpdateUnlessMissing(threadIds.value, ThreadIds(moved), w,
                                         Relocate(Some(TargetName(f, toFolder)), Some(f.folderId)));
      if missing != [] {
        return Err(MissingIds(missing));
      }
      r := Ok(BatchMove(f.folderId, |moved|, GroupByThread(Returning(moved))));
    }

    /** `moveMessagesToFolder`: as `moveThreadsToFolder`, keyed by message id. */
    method MoveMessagesToFolder(caller: Caller, messageIds: Option<seq<string>>, toFolder: string)
      returns (r: Result<MessagesMoved>)
      requires Valid()
      modifies this
      ensures Valid() && users == old(users) && folders == old(folders)
      ensures messageIds.None? || messageIds.value == [] || caller.email == [] || toFolder == [] ==>
                r == Err(BadRequest) && mailboxes == old(mailboxes)
      ensures messageIds.Some? && messageIds.value != [] && caller.email != [] && toFolder != [] ==>
                match UserByEmail(old(users), caller.email)
                case None => r == Err(NotFound) && mailboxes == old(mailboxes)
                case Some(u) =>
                  (match FolderByNameOrType(old(folders), u.id, toFolder)
                   case None => r == Err(NotFound) && mailboxes == old(mailboxes)
                   case Some(f) =>
                     var w := MessagesOfUser(messageIds.value, u.id);
                     var moved := Selected(old(mailboxes), w);
                     var missing := Absent(messageIds.value, MessageIds(moved));
                     AllOrNothing(old(mailboxes), mailboxes, missing, w, Relocate(Some(TargetName(f, toFolder)), Some(f.folderId)))
                     && r == if missing != [] then Err(MissingIds(missing))
                             else Ok(MessagesMoved(f.folderId, |moved|, ByMessage(moved))))
    {
      if messageIds.None? || messageIds.value == [] || caller.email == [] {
        return Err(BadRequest);
      }
      if toFolder == [] {
        return Err(BadRequest);
      }
      var user := UserByEmail(users, caller.email);
      if user.None? {
        return Err(NotFound);
      }
      var target := FolderByNameOrType(folders, user.value.id, toFolder);
      if target.None? {
        return Err(NotFound);
      }
      var f := target.value;
      var w := MessagesOfUser(messageIds.value, user.value.id);
      var moved := Selected(mailboxes, w);
      var missing := UpdateUnlessMissing(messageIds.value, MessageIds(moved), w,
                                         Relocate(Some(TargetName(f, toFolder)), Some(f.folderId)));
      if missing != [] {
        return Err(MissingIds(missing));
      }
      r := Ok(MessagesMoved(f.folderId, |moved|, ByMessage(moved)));
    }

    /**
     * `restoreThreadsFromArchive`: the caller's archived rows of the
     * threads go back by the case-sensitive CASE on `message_type`; the
     * answered total is the number of restored rows.
     */
    method RestoreThreadsFromArchive(caller: Caller, threadIds: Option<seq<string>>) returns (r: Result<Counted>)
      requires Valid()
      modifies this
      ensures Valid() && users == old(users) && folders == old(folders)
      ensures threadIds.None? || threadIds.value == [] ==> r == Err(BadRequest) && mailboxes == old(mailboxes)
      ensures threadIds.Some? && threadIds.value != [] ==>
                var archive := LastFolder(old(folders), caller.userId, "archive");
                var inbox := LastFolder(old(folders), caller.userId, "inbox");
                var sent := LastFolder(old(folders), caller.userId, "sent");
                if archive.None? || inbox.None? || sent.None? then r == Err(ServerError) && mailboxes == old(mailboxes)
                else
                  var w := ThreadsOfUserIn(threadIds.value, caller.userId, archive.value);
                  var restored := Selected(old(mailboxes), w);
                  var missing := Absent(threadIds.value, ThreadIds(restored));
                  AllOrNothing(old(mailboxes), mailboxes, missing, w,
                               RestoreByType(sent.value, LastFolder(old(folders), caller.userId, "drafts"), inbox.value))
                  && r == if missing != [] then Err(MissingIds(missing))
                          else Ok(Counted(|restored|, GroupCounts(restored)))
    {
      if threadIds.None? || threadIds.value == [] {
        return Err(BadRequest);
      }
      var archive := LastFolder(folders, caller.userId, "archive");
      var inbox := LastFolder(folders, caller.userId, "inbox");
      var sent := LastFolder(folders, caller.userId, "sent");
      var drafts := LastFolder(folders, caller.userId, "drafts");
      if archive.None? || inbox.None? || sent.None? {
        return Err(ServerError);
      }
      var w := ThreadsOfUserIn(threadIds.value, caller.userId, archive.value);
      var restored := Selected(mailboxes, w);
      var missing := UpdateUnlessMissing(threadIds.value, ThreadIds(restored), w,
                                         RestoreByType(sent.value, drafts, inbox.value));
      if missing != [] {
        return Err(MissingIds(missing));
      }
      var groups := GroupCounts(restored);
      r := Ok(Counted(TotalCount(groups), groups));
    }

    /**
     * `restoreThreadsFromFolder`: every thread id must be a version-4 UUID;
     * the source folder is matched by name or type ignoring case; the
     * missing threads are those the update did not reach, and then the
     * update is rolled back.
     */
    method RestoreThreadsFromFolder(caller: Caller, threadIds: Option<seq<string>>, restoreFrom: string)
      returns (r: Result<nat>)
      requires Valid()
      modifies this
      ensures Valid() && users == old(users) && folders == old(folders)
      ensures threadIds.None? || (threadIds.Some? && InvalidUuids(threadIds.value) != []) || restoreFrom == [] ==>
                r == Err(BadRequest) && mailboxes == old(mailboxes)
      ensures threadIds.Some? && InvalidUuids(threadIds.value) == [] && restoreFrom != [] ==>
                match FolderByNameOrTypeIgnoringCase(old(folders), caller.userId, restoreFrom)
                case None => r == Err(NotFound) && mailboxes == old(mailboxes)
                case Some(src) =>
                  var inbox := LastFolder(old(folders), caller.userId, "inbox");
                  var sent := LastFolder(old(folders), caller.userId, "sent");
                  if inbox.None? || sent.None? then r == Err(ServerError) && mailboxes == old(mailboxes)
                  else
                    var w := ThreadsOfUserIn(threadIds.value, caller.userId, src.folderId);
                    var restored := Selected(old(mailboxes), w);
                    var missing := Absent(threadIds.value, ThreadIds(restored));
                    AllOrNothing(old(mailboxes), mailboxes, missing, w,
                                 RestoreByType(sent.value, LastFolder(old(folders), caller.userId, "drafts"), inbox.value))
                    && r == if missing != [] then Err(MissingIds(missing)) else Ok(|restored|)
    {
      if threadIds.None? {
        return Err(BadRequest);
      }
      if InvalidUuids(threadIds.value) != [] {
        return Err(BadRequest);
      }
      if restoreFrom == [] {
        return Err(BadRequest);
      }
      var source := FolderByNameOrTypeIgnoringCase(folders, caller.userId, restoreFrom);
      if source.None? {
        return Err(NotFound);
      }
      var inbox := LastFolder(folders, caller.userId, "inbox");
      var sent := LastFolder(folders, caller.userId, "sent");
      var drafts := LastFolder(folders, caller.userId, "drafts");
      if inbox.None? || sent.None? {
        return Err(ServerError);
      }
      var w := ThreadsOfUserIn(threadIds.value, caller.userId, source.value.folderId);
      var restored := Selected(mailboxes, w);
      var missing := UpdateUnlessMissing(threadIds.value, ThreadIds(restored), w,
                                         RestoreByType(sent.value, drafts, inbox.value));
      if missing != [] {
        return Err(MissingIds(missing));
      }
      r := Ok(TotalCount(GroupCounts(restored)));
    }

    /** `restoreMessagesFromFolder`: as `restoreThreadsFromFolder`, keyed by message id and without the UUID check. */
    method RestoreMessagesFromFolder(caller: Caller, messageIds: Option<seq<string>>, restoreFrom: string)
      returns (r: Result<seq<MessageRow>>)
      requires Valid()
      modifies this
      ensures Valid() && users == old(users) && folders == old(folders)
      ensures messageIds.None? || restoreFrom == [] ==> r == Err(BadRequest) && mailboxes == old(mailboxes)
      ensures messageIds.Some? && restoreFrom != [] ==>
                match FolderByNameOrTypeIgnoringCase(old(folders), caller.userId, restoreFrom)
                case None => r == Err(NotFound) && mailboxes == old(mailboxes)
                case Some(src) =>
                  var inbox := LastFolder(old(folders), caller.userId, "inbox");
                  var sent := LastFolder(old(folders), caller.userId, "sent");
                  if inbox.None? || sent.None? then r == Err(ServerError) && mailboxes == old(mailboxes)
                  else
                    var w := MessagesOfUserIn(messageIds.value, caller.userId, src.folderId);
                    var restored := Selected(old(mailboxes), w);
                    var missing := Absent(messageIds.value, MessageIds(restored));
                    AllOrNothing(old(mailboxes), mailboxes, missing, w,
                                 RestoreByType(sent.value, LastFolder(old(folders), caller.userId, "drafts"), inbox.value))
                    && r == if missing != [] then Err(MissingIds(missing)) else Ok(MessageRows(restored))
    {
      if messageIds.None? || restoreFrom == [] {
        return Err(BadRequest);
      }
      var source := FolderByNameOrTypeIgnoringCase(folders, caller.userId, restoreFrom);
      if source.None? {
        return Err(NotFound);
      }
      var inbox := LastFolder(folders, caller.userId, "inbox");
      var sent := LastFolder(folders, caller.userId, "sent");
      var drafts := LastFolder(folders, caller.userId, "drafts");
      if inbox.None? || sent.None? {
        return Err(ServerError);
      }
      var w := MessagesOfUserIn(messageIds.value, caller.userId, source.value.folderId);
      var restored := Selected(mailboxes, w);
      var missing := UpdateUnlessMissing(messageIds.value, MessageIds(restored), w,
                                         RestoreByType(sent.value, drafts, inbox.value));
      if missing != [] {
        return Err(MissingIds(missing));
      }
      r := Ok(MessageRows(restored));
    }

    // -------------------------------------------------------------------
    // Read and starred flags
    // -------------------------------------------------------------------

    /**
     * `setEmailIsRead`: the caller's address is read from `users` before
     * any check (a missing row makes the handler throw); only rows whose
     * flag differs are counted and changed.
     */
    method SetEmailIsRead(caller: Caller, threadId: string, isRead: Option<bool>) returns (r: Result<nat>)
      requires Valid()
      modifies this
      ensures Valid() && users == old(users) && folders == old(folders)
      ensures UserById(old(users), caller.userId).None? ==> r == Err(ServerError) && mailboxes == old(mailboxes)
      ensures UserById(old(users), caller.userId).Some? ==>
                if threadId == [] || isRead.None? then r == Err(BadRequest) && mailboxes == old(mailboxes)
                else
                  var w := ReadChange([threadId], UserById(old(users), caller.userId).value.email, isRead.value);
                  if CountWhere(old(mailboxes), w) == 0 then r == Err(NotFound) && mailboxes == old(mailboxes)
                  else r == Ok(CountWhere(old(mailboxes), w)) && mailboxes == UpdateWhere(old(mailboxes), w, MarkRead(isRead.value))
    {
      var user := UserById(users, caller.userId);
      if user.None? {
        return Err(ServerError);
      }
      if threadId == [] || isRead.None? {
        return Err(BadRequest);
      }
      var w := ReadChange([threadId], user.value.email, isRead.value);
      var count := CountWhere(mailboxes, w);
      if count == 0 {
        return Err(NotFound);
      }
      UpdateKeepsRowIds(mailboxes, w, MarkRead(isRead.value));
      mailboxes := UpdateWhere(mailboxes, w, MarkRead(isRead.value));
      r := Ok(count);
    }

    /** `setThreadsReadStatus`: the batch form, answering the changed rows grouped by thread. */
    method SetThreadsReadStatus(caller: Caller, threadIds: Option<seq<string>>, isRead: Option<bool>)
      returns (r: Result<ThreadsUpdated>)
      requires Valid()
      modifies this
      ensures Valid() && users == old(users) && folders == old(folders)
      ensures threadIds.None? || threadIds.value == [] || isRead.None? ==> r == Err(BadRequest) && mailboxes == old(mailboxes)
      ensures threadIds.Some? && threadIds.value != [] && isRead.Some? ==>
                match UserById(old(users), caller.userId)
                case None => r == Err(NotFound) && mailboxes == old(mailboxes)
                case Some(u) =>
                  var w := ReadChange(threadIds.value, u.email, isRead.value);
                  var changed := Selected(old(mailboxes), w);
                  if changed == [] then r == Err(NotFound) && mailboxes == old(mailboxes)
                  else r == Ok(ThreadsUpdated(|changed|, GroupByThread(Returning(changed))))
                       && mailboxes == UpdateWhere(old(mailboxes), w, MarkRead(isRead.value))
    {
      if threadIds.None? || threadIds.value == [] || isRead.None? {
        return Err(BadRequest);
      }
      var user := UserById(users, caller.userId);
      if user.None? {
        return Err(NotFound);
      }
      var w := ReadChange(threadIds.value, user.value.email, isRead.value);
      var changed := Selected(mailboxes, w);
      if changed == [] {
        return Err(NotFound);
      }
      UpdateKeepsRowIds(mailboxes, w, MarkRead(isRead.value));
      mailboxes := UpdateWhere(mailboxes, w, MarkRead(isRead.value));
      r := Ok(ThreadsUpdated(|changed|, GroupByThread(Returning(changed))));
    }

    /** `setEmailStarred`: every copy of the message the caller sent or received; answers the value set. */
    method SetEmailStarred(caller: Caller, messageId: string, isStarred: Option<bool>) returns (r: Result<bool>)
      requires Valid()
      modifies this
      ensures Valid() && users == old(users) && folders == old(folders)
      ensures isStarred.None? ==> r == Err(BadRequest) && mailboxes == old(mailboxes)
      ensures isStarred.Some? ==>
                var w := MessageOfParty(messageId, caller.email);
                if CountWhere(old(mailboxes), w) == 0 then r == Err(NotFound) && mailboxes == old(mailboxes)
                else r == Ok(isStarred.value) && mailboxes == UpdateWhere(old(mailboxes), w, MarkStarred(isStarred.value))
    {
      if isStarred.None? {
        return Err(BadRequest);
      }
      var w := MessageOfParty(messageId, caller.email);
      if CountWhere(mailboxes, w) == 0 {
        return Err(NotFound);
      }
      UpdateKeepsRowIds(mailboxes, w, MarkStarred(isStarred.value));
      mailboxes := UpdateWhere(mailboxes, w, MarkStarred(isStarred.value));
      r := Ok(isStarred.value);
    }

    /** `toggleEmailStarred`: the first matching row's flag, negated, is written to every matching row. */
    method ToggleEmailStarred(caller: Caller, messageId: string) returns (r: Result<bool>)
      requires Valid()
      modifies this
      ensures Valid() && users == old(users) && folders == old(folders)
      ensures var w := MessageOfParty(messageId, caller.email);
              var current := Selected(old(mailboxes), w);
              if current == [] then r == Err(NotFound) && mailboxes == old(mailboxes)
              else r == Ok(!current[0].isStarred) && mailboxes == UpdateWhere(old(mailboxes), w, MarkStarred(!current[0].isStarred))
    {
      var w := MessageOfParty(messageId, caller.email);
      var current := Selected(mailboxes, w);
      if current == [] {
        return Err(NotFound);
      }
      var v := !current[0].isStarred;
      UpdateKeepsRowIds(mailboxes, w, MarkStarred(v));
      mailboxes := UpdateWhere(mailboxes, w, MarkStarred(v));
      r := Ok(v);
    }

    // -------------------------------------------------------------------
    // Deletes
    // -------------------------------------------------------------------

    /**
     * `deleteMultipleThreads`: scoped by the caller's address, not by owner;
     * all or nothing; the answered total is the number of deleted rows.
     */
    method DeleteMultipleThreads(caller: Caller, threadIds: Option<seq<string>>) returns (r: Result<Counted>)
      requires Valid()
      modifies this
      ensures Valid() && users == old(users) && folders == old(folders)
      ensures threadIds.None? || threadIds.value == [] ==> r == Err(BadRequest) && mailboxes == old(mailboxes)
      ensures threadIds.Some? && threadIds.value != [] ==>
                match UserById(old(users), caller.userId)
                case None => r == Err(NotFound) && mailboxes == old(mailboxes)
                case Some(u) =>
                  var w := ThreadsOfParty(threadIds.value, u.email);
                  var deleted := Selected(old(mailboxes), w);
                  var missing := Absent(threadIds.value, ThreadIds(deleted));
                  if missing != [] then r == Err(MissingIds(missing)) && mailboxes == old(mailboxes)
                  else r == Ok(Counted(|deleted|, GroupCounts(deleted))) && mailboxes == DeleteWhere(old(mailboxes), w)
    {
      if threadIds.None? || threadIds.value == [] {
        return Err(BadRequest);
      }
      var user := UserById(users, caller.userId);
      if user.None? {
        return Err(NotFound);
      }
      var w := ThreadsOfParty(threadIds.value, user.value.email);
      var deleted := Selected(mailboxes, w);
      var missing := Absent(threadIds.value, ThreadIds(deleted));
      if missing != [] {
        return Err(MissingIds(missing));
      }
      DeleteKeepsRowIds(mailboxes, w);
      mailboxes := DeleteWhere(mailboxes, w);
      var groups := GroupCounts(deleted);
      r := Ok(Counted(TotalCount(groups), groups));
    }

    /** `deleteDraft`: the first of the caller's drafts with that message id is deleted by row id. */
    method DeleteDraft(caller: Caller, messageId: string) returns (r: Result<string>)
      requires Valid()
      modifies this
      ensures Valid() && users == old(users) && folders == old(folders)
      ensures var drafts := Selected(old(mailboxes), DraftOfUser(messageId, caller.userId));
              if drafts == [] then r == Err(NotFound) && mailboxes == old(mailboxes)
              else r == Ok(messageId) && mailboxes == DeleteWhere(old(mailboxes), Row(drafts[0].id))
    {
      var drafts := Selected(mailboxes, DraftOfUser(messageId, caller.userId));
      if drafts == [] {
        return Err(NotFound);
      }
      DeleteKeepsRowIds(mailboxes, Row(drafts[0].id));
      mailboxes := DeleteWhere(mailboxes, Row(drafts[0].id));
      r := Ok(messageId);
    }

    /** `deleteDrafts`: every draft of the caller's with one of the ids; answers the deleted message ids. */
    method DeleteDrafts(caller: Caller, messageIds: Option<seq<string>>) returns (r: Result<seq<string>>)
      requires Valid()
      modifies this
      ensures Valid() && users == old(users) && folders == old(folders)
      ensures messageIds.None? || messageIds.value == [] ==> r == Err(BadRequest) && mailboxes == old(mailboxes)
      ensures messageIds.Some? && messageIds.value != [] ==>
                var w := DraftsOfUser(messageIds.value, caller.userId);
                r == Ok(MessageIdList(Selected(old(mailboxes), w))) && mailboxes == DeleteWhere(old(mailboxes), w)
    {
      if messageIds.None? || messageIds.value == [] {
        return Err(BadRequest);
      }
      var w := DraftsOfUser(messageIds.value, caller.userId);
      var deleted := Selected(mailboxes, w);
      DeleteKeepsRowIds(mailboxes, w);
      mailboxes := DeleteWhere(mailboxes, w);
      r := Ok(MessageIdList(deleted));
    }

    // -------------------------------------------------------------------
    // Drafts and sent mail
    // -------------------------------------------------------------------

    /**
     * `saveDraft`. `newMessageId` and `newThreadId` stand for the UUIDs the
     * handler draws; the Drafts folder is created before the emptiness
     * check and rolled back with it.
     */
    /** The update branch of `saveDraft`: the saved draft gets the new body, and is refiled into Drafts when it sits elsewhere. */
    static method EditDraftRows(mailboxes: seq<Message>, row: Message, d: DraftRequest, draftsId: Id)
      returns (rows: seq<Message>)
      requires UniqueRowIds(mailboxes)
      ensures UniqueRowIds(rows)
      ensures var edited := UpdateWhere(mailboxes, Row(row.id), EditDraft(NullIfEmpty(d.to), DraftContent(d)));
              rows == if row.folderId != Some(draftsId) then UpdateWhere(edited, Row(row.id), Refile(draftsId)) else edited
    {
      rows := UpdateWhere(mailboxes, Row(row.id), EditDraft(NullIfEmpty(d.to), DraftContent(d)));
      UpdateKeepsRowIds(mailboxes, Row(row.id), EditDraft(NullIfEmpty(d.to), DraftContent(d)));
      if row.folderId != Some(draftsId) {
        UpdateKeepsRowIds(rows, Row(row.id), Refile(draftsId));
        rows := UpdateWhere(rows, Row(row.id), Refile(draftsId));
      }
    }

    method SaveDraft(caller: Caller, d: DraftRequest, newMessageId: string, newThreadId: string)
      returns (r: Result<SavedDraft>)
      requires Valid()
      modifies this
      ensures Valid() && users == old(users)
      ensures DraftSaved(old(users), old(folders), folders, old(mailboxes), mailboxes, caller.userId, d,
                         newMessageId, newThreadId, r)
    {
      var user := UserById(users, caller.userId);
      if user.None? {
        return Err(Unauthorized);
      }
      var u := user.value;
      var existing := FirstFolder(folders, u.id, "drafts");
      var draftsId: Id;
      var folders' := folders;
      if existing.None? {
        draftsId := NextFolderId(folders);
        folders' := folders + [DraftsFolder(draftsId, u.id)];
      } else {
        draftsId := existing.value;
      }
      if !HasDraftText(d) {
        return Err(BadRequest);
      }
      folders := folders';
      r := WriteDraft(u, draftsId, d, newMessageId, newThreadId);
    }

    /** The row-writing half of `saveDraft`, once the Drafts folder is known. */
    method WriteDraft(u: User, draftsId: Id, d: DraftRequest, newMessageId: string, newThreadId: string)
      returns (r: Result<SavedDraft>)
      requires Valid()
      modifies this
      ensures Valid() && users == old(users) && folders == old(folders)
      ensures DraftWritten(old(mailboxes), mailboxes, u, draftsId, d, newMessageId, newThreadId, r)
    {
      if d.messageId != [] {
        var prior := Selected(mailboxes, DraftOfUser(d.messageId, u.id));
        if prior != [] {
          var row := prior[0];
          mailboxes := EditDraftRows(mailboxes, row, d, draftsId);
          return Ok(SavedDraft(false, d.messageId, if row.threadId != [] then row.threadId else d.threadId));
        }
      }
      var thread := if d.threadId != [] then d.threadId else newThreadId;
      var draft := NewDraftRow(NextRowId(mailboxes), u, draftsId, thread, newMessageId, d);
      InsertKeepsRowIds(mailboxes, draft);
      mailboxes := mailboxes + [draft];
      r := Ok(SavedDraft(true, newMessageId, thread));
    }

    /**
     * `storeEmailInDb`. `prepared` stands for the body columns the handler
     * builds from the request (plain or OpenPGP-encrypted, with the
     * attachment list); `newMessageId` and `newThreadId` for the UUIDs it
     * draws.
     */
    method StoreEmailInDb(caller: Caller, req: SendRequest, prepared: Content, newMessageId: string, newThreadId: string)
      returns (r: Result<Stored>)
      requires Valid()
      modifies this
      ensures Valid() && users == old(users) && folders == old(folders)
      ensures EmailStored(old(users), old(folders), old(mailboxes), mailboxes, caller.userId, req, prepared,
                          newMessageId, newThreadId, r)
      ensures r.Ok? && newThreadId != [] ==> r.value.threadId != []
    {
      var user := UserById(users, caller.userId);
      if user.None? {
        return Err(NotFound);
      }
      var u := user.value;
      var sent := FirstFolder(folders, u.id, "sent");
      if sent.None? {
        return Err(ServerError);
      }
      var c := SentContent(req, prepared);
      var messageId := if req.messageId != [] then req.messageId else newMessageId;
      var thread := "";
      if req.messageId != [] {
        var draft := Selected(mailboxes, DraftOfUser(req.messageId, u.id));
        if draft != [] {
          thread := draft[0].threadId;
          var a := SendDraft(sent.value, req.to, c);
          UpdateKeepsRowIds(mailboxes, MessageOfUser(req.messageId, u.id), a);
          mailboxes := UpdateWhere(mailboxes, MessageOfUser(req.messageId, u.id), a);
        }
      }
      if thread == [] {
        thread := ReplyThread(mailboxes, req, u.id, newThreadId);
        var row := SentRow(NextRowId(mailboxes), u, sent.value, thread, messageId, req, c);
        InsertKeepsRowIds(mailboxes, row);
        mailboxes := mailboxes + [row];
      }
      r := Ok(Stored(messageId, thread));
    }
  }
}
