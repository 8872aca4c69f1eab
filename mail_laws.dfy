/**
 * Properties that relate the e-mail handlers to one another: a batch move
 * followed by a batch restore, a star toggled twice, a draft saved and
 * deleted, a draft sent.
 */
module MailLaws {
  import opened Common
  import opened Accounts
  import opened MailRows
  import opened MailCompose

  // ---------------------------------------------------------------------
  // Batch moves and restores
  // ---------------------------------------------------------------------

  /** `wIn` is `w` restricted to the rows whose `folder_id` is `fid`. */
  predicate NarrowsToFolder(w: Where, wIn: Where, fid: Id)
  {
    match wIn
    case ThreadsOfUserIn(tids, uid, f) => w == ThreadsOfUser(tids, uid) && f == fid
    case MessagesOfUserIn(mids, uid, f) => w == MessagesOfUser(mids, uid) && f == fid
    case _ => false
  }

  /**
   * After every row `w` selects is moved into folder `fid`, the rows the
   * narrowed clause selects are exactly the moved rows, in order.
   */
  lemma {:induction false} MovedRowsAreInTarget(rows: seq<Message>, w: Where, wIn: Where, name: Option<string>, fid: Id)
    requires NarrowsToFolder(w, wIn, fid)
    ensures Selected(UpdateWhere(rows, w, Relocate(name, Some(fid))), wIn)
            == UpdateWhere(Selected(rows, w), w, Relocate(name, Some(fid)))
    decreases |rows|
  {
    if rows != [] {
      var a := Relocate(name, Some(fid));
      MovedRowsAreInTarget(rows[1..], w, wIn, name, fid);
      assert UpdateWhere(rows, w, a) == [if Matches(w, rows[0]) then Apply(a, rows[0]) else rows[0]]
                                        + UpdateWhere(rows[1..], w, a);
      if Matches(w, rows[0]) {
        assert Selected(rows, w) == [rows[0]] + Selected(rows[1..], w);
      } else {
        assert Selected(rows, w) == Selected(rows[1..], w);
      }
    }
  }

  /** No SET clause changes a thread id, so an UPDATE keeps the thread ids it returns. */
  lemma UpdateKeepsThreadIds(rows: seq<Message>, w: Where, a: Assign)
    ensures ThreadIds(UpdateWhere(rows, w, a)) == ThreadIds(rows)
  {
    var r := UpdateWhere(rows, w, a);
    forall i | 0 <= i < |rows| ensures r[i].threadId == rows[i].threadId && r[i].messageId == rows[i].messageId {
      UpdatedRowKeepsIds(rows[i], w, a);
    }
    SameIdColumns(r, rows);
  }

  /** Nor a message id. */
  lemma UpdateKeepsMessageIds(rows: seq<Message>, w: Where, a: Assign)
    ensures MessageIds(UpdateWhere(rows, w, a)) == MessageIds(rows)
  {
    var r := UpdateWhere(rows, w, a);
    forall i | 0 <= i < |rows| ensures r[i].threadId == rows[i].threadId && r[i].messageId == rows[i].messageId {
      UpdatedRowKeepsIds(rows[i], w, a);
    }
    SameIdColumns(r, rows);
  }

  lemma UpdatedRowKeepsIds(m: Message, w: Where, a: Assign)
    ensures var x := if Matches(w, m) then Apply(a, m) else m;
            x.threadId == m.threadId && x.messageId == m.messageId
  {
  }

  /** Two tables whose rows agree on the thread and message ids have the same id sets. */
  lemma SameIdColumns(r: seq<Message>, rows: seq<Message>)
    requires |r| == |rows|
    requires forall i :: 0 <= i < |rows| ==> r[i].threadId == rows[i].threadId && r[i].messageId == rows[i].messageId
    ensures ThreadIds(r) == ThreadIds(rows) && MessageIds(r) == MessageIds(rows)
  {
    forall t | t in ThreadIds(rows) ensures t in ThreadIds(r) {
      var i :| 0 <= i < |rows| && rows[i].threadId == t;
      assert r[i] in r;
    }
    forall t | t in ThreadIds(r) ensures t in ThreadIds(rows) {
      var i :| 0 <= i < |r| && r[i].threadId == t;
      assert rows[i] in rows;
    }
    forall x | x in MessageIds(rows) ensures x in MessageIds(r) {
      var i :| 0 <= i < |rows| && rows[i].messageId == x;
      assert r[i] in r;
    }
    forall x | x in MessageIds(r) ensures x in MessageIds(rows) {
      var i :| 0 <= i < |r| && r[i].messageId == x;
      assert rows[i] in rows;
    }
  }

  /**
   * A batch move that found every thread can be followed by a batch
   * restore from the target folder that finds every thread too, and that
   * restores as many rows as were moved.
   */
  lemma MovedThreadsCanBeRestored(rows: seq<Message>, ids: seq<string>, userId: string, name: Option<string>, fid: Id)
    requires Absent(ids, ThreadIds(Selected(rows, ThreadsOfUser(ids, userId)))) == []
    ensures var moved := UpdateWhere(rows, ThreadsOfUser(ids, userId), Relocate(name, Some(fid)));
            Absent(ids, ThreadIds(Selected(moved, ThreadsOfUserIn(ids, userId, fid)))) == []
            && CountWhere(moved, ThreadsOfUserIn(ids, userId, fid)) == CountWhere(rows, ThreadsOfUser(ids, userId))
  {
    var w := ThreadsOfUser(ids, userId);
    var a := Relocate(name, Some(fid));
    MovedRowsAreInTarget(rows, w, ThreadsOfUserIn(ids, userId, fid), name, fid);
    UpdateKeepsThreadIds(Selected(rows, w), w, a);
  }

  /** The same for a batch message move followed by a batch message restore. */
  lemma MovedMessagesCanBeRestored(rows: seq<Message>, ids: seq<string>, userId: string, name: Option<string>, fid: Id)
    requires Absent(ids, MessageIds(Selected(rows, MessagesOfUser(ids, userId)))) == []
    ensures var moved := UpdateWhere(rows, MessagesOfUser(ids, userId), Relocate(name, Some(fid)));
            Absent(ids, MessageIds(Selected(moved, MessagesOfUserIn(ids, userId, fid)))) == []
            && CountWhere(moved, MessagesOfUserIn(ids, userId, fid)) == CountWhere(rows, MessagesOfUser(ids, userId))
  {
    var w := MessagesOfUser(ids, userId);
    var a := Relocate(name, Some(fid));
    MovedRowsAreInTarget(rows, w, MessagesOfUserIn(ids, userId, fid), name, fid);
    UpdateKeepsMessageIds(Selected(rows, w), w, a);
  }

  /**
   * Archiving threads and restoring them from the archive is the same as
   * applying the restore's CASE to the threads directly: where each row
   * ends up depends only on its `message_type`, not on where it was.
   */
  lemma ArchiveThenRestoreThreads(rows: seq<Message>, ids: seq<string>, userId: string, archiveId: Id,
                                  sentId: Id, draftsId: Option<Id>, inboxId: Id)
    ensures var w := ThreadsOfUser(ids, userId);
            var archived := UpdateWhere(rows, w, Relocate(Some("Archive"), Some(archiveId)));
            UpdateWhere(archived, ThreadsOfUserIn(ids, userId, archiveId), RestoreByType(sentId, draftsId, inboxId))
            == UpdateWhere(rows, w, RestoreByType(sentId, draftsId, inboxId))
  {
    var w := ThreadsOfUser(ids, userId);
    var archived := UpdateWhere(rows, w, Relocate(Some("Archive"), Some(archiveId)));
    var back := UpdateWhere(archived, ThreadsOfUserIn(ids, userId, archiveId), RestoreByType(sentId, draftsId, inboxId));
    var direct := UpdateWhere(rows, w, RestoreByType(sentId, draftsId, inboxId));
    forall i | 0 <= i < |rows| ensures back[i] == direct[i] {
      ArchiveThenRestoreRow(rows[i], ids, userId, archiveId, sentId, draftsId, inboxId);
    }
  }

  /** `ArchiveThenRestoreThreads` for one row. */
  lemma ArchiveThenRestoreRow(m: Message, ids: seq<string>, userId: string, archiveId: Id,
                              sentId: Id, draftsId: Option<Id>, inboxId: Id)
    ensures var w := ThreadsOfUser(ids, userId);
            var archived := if Matches(w, m) then Apply(Relocate(Some("Archive"), Some(archiveId)), m) else m;
            var back := if Matches(ThreadsOfUserIn(ids, userId, archiveId), archived)
                        then Apply(RestoreByType(sentId, draftsId, inboxId), archived) else archived;
            back == if Matches(w, m) then Apply(RestoreByType(sentId, draftsId, inboxId), m) else m
  {
  }

  // ---------------------------------------------------------------------
  // Starred flag
  // ---------------------------------------------------------------------

  /** After writing `v` to every row `w` selects, the first selected row reads back `v`. */
  lemma StarredReadsBack(rows: seq<Message>, w: Where, v: bool)
    requires w.MessageOfParty?
    ensures var after := UpdateWhere(rows, w, MarkStarred(v));
            forall m :: m in Selected(after, w) ==> m.isStarred == v
  {
    var after := UpdateWhere(rows, w, MarkStarred(v));
    forall m | m in Selected(after, w) ensures m.isStarred == v {
      assert m in after && Matches(w, m);
      var i :| 0 <= i < |after| && after[i] == m;
      StarredRow(rows[i], w, v);
    }
  }

  lemma StarredRow(m: Message, w: Where, v: bool)
    requires w.MessageOfParty?
    ensures Matches(w, Apply(MarkStarred(v), m)) ==> Matches(w, m)
    ensures Apply(MarkStarred(v), m).isStarred == v
  {
  }

  /** Writing the negation of a flag every selected row shares, and then the flag itself, gives back the rows. */
  lemma StarTwiceRestores(rows: seq<Message>, w: Where, b: bool)
    requires w.MessageOfParty?
    requires forall m :: m in rows && Matches(w, m) ==> m.isStarred == b
    ensures UpdateWhere(UpdateWhere(rows, w, MarkStarred(!b)), w, MarkStarred(b)) == rows
  {
    var once := UpdateWhere(rows, w, MarkStarred(!b));
    var twice := UpdateWhere(once, w, MarkStarred(b));
    forall i | 0 <= i < |rows| ensures twice[i] == rows[i] {
      if Matches(w, rows[i]) {
        assert rows[i] in rows;
      }
      StarTwiceRow(rows[i], w, b);
    }
  }

  /** `StarTwiceRestores` for one row. */
  lemma StarTwiceRow(m: Message, w: Where, b: bool)
    requires w.MessageOfParty?
    requires Matches(w, m) ==> m.isStarred == b
    ensures var once := if Matches(w, m) then Apply(MarkStarred(!b), m) else m;
            (if Matches(w, once) then Apply(MarkStarred(b), once) else once) == m
  {
  }

  /**
   * Toggling the star of a message twice gives back the table, provided
   * every copy the caller can see carried the same flag: the first toggle
   * answers the negation and the second the original value.
   */
  lemma ToggleTwiceRestores(rows: seq<Message>, messageId: string, email: string, b: bool)
    requires forall m :: m in rows && Matches(MessageOfParty(messageId, email), m) ==> m.isStarred == b
    requires exists m :: m in rows && Matches(MessageOfParty(messageId, email), m)
    ensures var w := MessageOfParty(messageId, email);
            var once := UpdateWhere(rows, w, MarkStarred(!b));
            Selected(once, w) != [] && !Selected(once, w)[0].isStarred == b
            && UpdateWhere(once, w, MarkStarred(!Selected(once, w)[0].isStarred)) == rows
  {
    var w := MessageOfParty(messageId, email);
    var once := UpdateWhere(rows, w, MarkStarred(!b));
    var m :| m in rows && Matches(w, m);
    var k :| 0 <= k < |rows| && rows[k] == m;
    StarKeepsMatch(m, w, !b);
    assert once[k] in once;
    var sel := Selected(once, w);
    assert sel != [];
    StarredReadsBack(rows, w, !b);
    assert sel[0] in sel;
    StarTwiceRestores(rows, w, b);
  }

  /** Starring keeps every column a party clause reads. */
  lemma StarKeepsMatch(m: Message, w: Where, v: bool)
    requires w.MessageOfParty?
    ensures Matches(w, Apply(MarkStarred(v), m)) == Matches(w, m)
  {
  }

  /** When the copies disagree, toggling twice does not give the table back. */
  lemma ToggleTwiceDriftsWhenCopiesDisagree()
    ensures var c := Content("", "", "", None, None, None, "", false, false);
            var sent := Message(1, "u1", "t", "m", None, None, None, "a@x.io", Some("b@x.io"), true, true, false, c);
            var received := sent.(id := 2, userId := "u2", isStarred := false);
            var rows := [sent, received];
            var w := MessageOfParty("m", "a@x.io");
            var once := UpdateWhere(rows, w, MarkStarred(!Selected(rows, w)[0].isStarred));
            var twice := UpdateWhere(once, w, MarkStarred(!Selected(once, w)[0].isStarred));
            twice != rows
  {
    var c := Content("", "", "", None, None, None, "", false, false);
    var sent := Message(1, "u1", "t", "m", None, None, None, "a@x.io", Some("b@x.io"), true, true, false, c);
    var received := sent.(id := 2, userId := "u2", isStarred := false);
    var rows := [sent, received];
    var w := MessageOfParty("m", "a@x.io");
    assert Selected(rows, w) == [sent, received];
    var once := UpdateWhere(rows, w, MarkStarred(false));
    assert once == [sent.(isStarred := false), received];
    assert Selected(once, w) == once;
    var twice := UpdateWhere(once, w, MarkStarred(true));
    assert twice[1].isStarred != rows[1].isStarred;
  }

  // ---------------------------------------------------------------------
  // Drafts
  // ---------------------------------------------------------------------

  lemma DeleteKeepsHead(x: Message, rest: seq<Message>, w: Where)
    requires !Matches(w, x)
    ensures DeleteWhere([x] + rest, w) == [x] + DeleteWhere(rest, w)
  {
    assert ([x] + rest)[0] == x;
    assert ([x] + rest)[1..] == rest;
  }

  lemma DeleteDropsOnly(m: Message)
    ensures DeleteWhere([m], Row(m.id)) == []
  {
    assert [m][1..] == [];
  }

  /** Deleting by the id of a row appended with a fresh id removes that row and nothing else. */
  lemma {:induction false} DeleteOnlyLast(rows: seq<Message>, m: Message)
    requires forall x :: x in rows ==> x.id != m.id
    ensures DeleteWhere(rows + [m], Row(m.id)) == rows
    decreases |rows|
  {
    if rows == [] {
      assert rows + [m] == [m];
      DeleteDropsOnly(m);
    } else {
      assert rows[0] in rows;
      assert rows + [m] == [rows[0]] + (rows[1..] + [m]);
      DeleteKeepsHead(rows[0], rows[1..] + [m], Row(m.id));
      DeleteOnlyLast(rows[1..], m);
      assert rows == [rows[0]] + rows[1..];
    }
  }

  /**
   * A first save of a draft can be undone by deleting it: the new row is
   * the caller's only draft with its fresh message id, and deleting that
   * draft gives back the table.
   */
  lemma SavedDraftCanBeDeleted(rows: seq<Message>, u: User, draftsId: Id, threadId: string, messageId: string,
                               d: DraftRequest)
    requires forall m :: m in rows ==> !Matches(DraftOfUser(messageId, u.id), m)
    ensures var draft := NewDraftRow(NextRowId(rows), u, draftsId, threadId, messageId, d);
            Selected(rows + [draft], DraftOfUser(messageId, u.id)) == [draft]
            && DeleteWhere(rows + [draft], Row(draft.id)) == rows
  {
    var draft := NewDraftRow(NextRowId(rows), u, draftsId, threadId, messageId, d);
    var w := DraftOfUser(messageId, u.id);
    assert Matches(w, draft);
    assert Selected(rows, w) == [] by {
      assert CountWhere(rows, w) == 0;
    }
    SelectedAppend(rows, draft, w);
    assert forall x :: x in rows ==> x.id != draft.id;
    DeleteOnlyLast(rows, draft);
  }

  /**
   * Sending a saved draft takes every copy of it out of the caller's
   * drafts and files it in the Sent folder as a sent message.
   */
  lemma SentDraftLeavesDrafts(rows: seq<Message>, messageId: string, userId: string, sentId: Id,
                              to: Option<string>, c: Content)
    ensures var after := UpdateWhere(rows, MessageOfUser(messageId, userId), SendDraft(sentId, to, c));
            CountWhere(after, DraftOfUser(messageId, userId)) == 0
            && forall m :: m in Selected(after, MessageOfUser(messageId, userId)) ==>
                 m.folderId == Some(sentId) && m.messageType == Some("Sent") && !m.isDraft
  {
    var after := UpdateWhere(rows, MessageOfUser(messageId, userId), SendDraft(sentId, to, c));
    forall m | m in after && Matches(MessageOfUser(messageId, userId), m)
      ensures m.folderId == Some(sentId) && m.messageType == Some("Sent") && !m.isDraft
    {
      var i :| 0 <= i < |after| && after[i] == m;
      assert Matches(MessageOfUser(messageId, userId), rows[i]);
    }
  }
}
