/**
 * The `mailboxes` and `folders` tables and the SQL statements the e-mail
 * controller runs on them. A WHERE clause is a `Where` value and a SET
 * clause an `Assign` value, so an UPDATE is `UpdateWhere(rows, w, a)` and a
 * DELETE is `DeleteWhere(rows, w)`; the handlers in `MailStore` are
 * sequences of such statements.
 */
module MailRows {
  import opened Common

  /** The body columns of a `mailboxes` row. */
  datatype Content = Content(
    subject: string,
    body: string,
    plainText: string,
    cc: Option<string>,
    bcc: Option<string>,
    inReplyTo: Option<string>,
    attachments: string,
    isEncrypted: bool,
    hasAttachments: bool)

  /**
   * One `mailboxes` row: one user's copy of one message. `folder` is the
   * display name and `folderId` the folder row; the two are written
   * separately and need not agree.
   */
  datatype Message = Message(
    id: Id,
    userId: string,
    threadId: string,
    messageId: string,
    folder: Option<string>,
    folderId: Option<Id>,
    messageType: Option<string>,
    fromEmail: string,
    toEmail: Option<string>,
    isRead: bool,
    isStarred: bool,
    isDraft: bool,
    content: Content)

  /** One `folders` row; `kind` is the `type` column. */
  datatype Folder = Folder(
    folderId: Id,
    userId: string,
    name: string,
    kind: string,
    parentId: Option<Id>,
    color: Option<string>,
    icon: Option<string>,
    sortOrder: int,
    syncEnabled: bool)

  // ---------------------------------------------------------------------
  // WHERE and SET clauses
  // ---------------------------------------------------------------------

  /** The WHERE clauses of the controller's UPDATE, SELECT and DELETE statements. */
  datatype Where =
    | MessageOfUser(messageId: string, userId: string)
    | ThreadOfUser(threadId: string, userId: string)
    | ThreadOfParty(threadId: string, email: string)
    | MessageOfParty(messageId: string, email: string)
    | ReadChange(threadIds: seq<string>, email: string, isRead: bool)
    | ThreadsOfParty(threadIds: seq<string>, email: string)
    | ThreadsOfUser(threadIds: seq<string>, userId: string)
    | MessagesOfUser(messageIds: seq<string>, userId: string)
    | ThreadsOfUserIn(threadIds: seq<string>, userId: string, folderId: Id)
    | MessagesOfUserIn(messageIds: seq<string>, userId: string, folderId: Id)
    | ThreadOfUserInAny(threadId: string, userId: string, folderIds: set<Id>)
    | MessageOfUserInAny(messageId: string, userId: string, folderIds: set<Id>)
    | DraftOfUser(messageId: string, userId: string)
    | DraftsOfUser(messageIds: seq<string>, userId: string)
    | RowOfUser(rowId: Id, userId: string)
    | Row(rowId: Id)
    | SenderOfUser(fromEmail: string, userId: string)

  /** `(from_email = $e OR to_email = $e)`; a NULL recipient never matches. */
  predicate Party(m: Message, email: string)
  {
    m.fromEmail == email || m.toEmail == Some(email)
  }

  predicate InFolderSet(m: Message, ids: set<Id>)
  {
    m.folderId.Some? && m.folderId.value in ids
  }

  predicate Matches(w: Where, m: Message)
  {
    match w
    case MessageOfUser(mid, uid) => m.messageId == mid && m.userId == uid
    case ThreadOfUser(tid, uid) => m.threadId == tid && m.userId == uid
    case ThreadOfParty(tid, e) => m.threadId == tid && Party(m, e)
    case MessageOfParty(mid, e) => m.messageId == mid && Party(m, e)
    case ReadChange(tids, e, v) => m.threadId in tids && Party(m, e) && m.isRead != v
    case ThreadsOfParty(tids, e) => m.threadId in tids && Party(m, e)
    case ThreadsOfUser(tids, uid) => m.threadId in tids && m.userId == uid
    case MessagesOfUser(mids, uid) => m.messageId in mids && m.userId == uid
    case ThreadsOfUserIn(tids, uid, f) => m.threadId in tids && m.userId == uid && m.folderId == Some(f)
    case MessagesOfUserIn(mids, uid, f) => m.messageId in mids && m.userId == uid && m.folderId == Some(f)
    case ThreadOfUserInAny(tid, uid, fs) => m.threadId == tid && m.userId == uid && InFolderSet(m, fs)
    case MessageOfUserInAny(mid, uid, fs) => m.messageId == mid && m.userId == uid && InFolderSet(m, fs)
    case DraftOfUser(mid, uid) => m.messageId == mid && m.userId == uid && m.isDraft
    case DraftsOfUser(mids, uid) => m.messageId in mids && m.userId == uid && m.isDraft
    case RowOfUser(id, uid) => m.id == id && m.userId == uid
    case Row(id) => m.id == id
    case SenderOfUser(e, uid) => m.userId == uid && m.fromEmail == e
  }

  /** The folder a restore sends a message back to. */
  datatype Origin = Inbox | Sent | Drafts

  function OriginName(o: Origin): string
  {
    match o
    case Inbox => "Inbox"
    case Sent => "Sent"
    case Drafts => "Drafts"
  }

  /**
   * The per-thread restores (from Trash, from Archive, and the single
   * message restore from Archive) infer the origin from the lower-cased
   * `message_type` and from whether the caller sent the message.
   */
  function RestoreOrigin(messageType: Option<string>, fromEmail: string, callerEmail: string): (r: Origin)
    ensures r == Sent <==> fromEmail == callerEmail
                           || (messageType.Some? && EqualsIgnoringCase(messageType.value, "sent"))
    ensures r == Drafts <==> fromEmail != callerEmail
                             && messageType.Some? && EqualsIgnoringCase(messageType.value, "draft")
  {
    assert Lower("sent") == "sent" && Lower("draft") == "draft";
    var t := if messageType.Some? then Some(Lower(messageType.value)) else None;
    if t == Some("sent") || fromEmail == callerEmail then Sent
    else if t == Some("draft") then Drafts
    else Inbox
  }

  /**
   * The batch restores decide in SQL with a case-sensitive CASE on
   * `message_type` and do not look at the sender.
   */
  function BatchOrigin(messageType: Option<string>): (r: Origin)
    ensures r == Sent <==> messageType == Some("sent")
    ensures r == Drafts <==> messageType == Some("draft")
  {
    if messageType == Some("sent") then Sent
    else if messageType == Some("draft") then Drafts
    else Inbox
  }

  /** The SET clauses of the controller's UPDATE statements. */
  datatype Assign =
    | Relocate(newName: Option<string>, newFolderId: Option<Id>)    // folder, folder_id
    | Rename(displayName: string)                                   // folder only
    | Refile(targetId: Id)                                          // folder_id only
    | MarkRead(isRead: bool)
    | MarkStarred(isStarred: bool)
    | RestoreByType(sentId: Id, draftsId: Option<Id>, inboxId: Id)  // CASE message_type ...
    | EditDraft(to: Option<string>, draft: Content)                 // saving a draft again
    | SendDraft(sentFolderId: Id, to: Option<string>, sent: Content)    // sending a saved draft

  /** The folder id the batch CASE writes: drafts fall back to the inbox (COALESCE). */
  function BatchFolderId(o: Origin, sentId: Id, draftsId: Option<Id>, inboxId: Id): (r: Id)
    ensures r == sentId || r == inboxId || Some(r) == draftsId
    ensures o == Drafts && draftsId.None? ==> r == inboxId
  {
    match o
    case Sent => sentId
    case Drafts => if draftsId.Some? then draftsId.value else inboxId
    case Inbox => inboxId
  }

  /** The inbox, sent and drafts folder ids a per-thread restore looks up (absent ids write NULL). */
  datatype FolderMap = FolderMap(inbox: Option<Id>, sent: Option<Id>, drafts: Option<Id>)

  function MapFolder(fm: FolderMap, o: Origin): Option<Id>
  {
    match o
    case Inbox => fm.inbox
    case Sent => fm.sent
    case Drafts => fm.drafts
  }

  /** The SET clause one iteration of a per-thread restore loop runs for `m`. */
  function RestoreAssign(m: Message, callerEmail: string, fm: FolderMap): Assign
  {
    var o := RestoreOrigin(m.messageType, m.fromEmail, callerEmail);
    Relocate(Some(OriginName(o)), MapFolder(fm, o))
  }

  /** What one iteration of a per-thread restore loop writes to its row. */
  function RestoreRow(m: Message, callerEmail: string, fm: FolderMap): Message
  {
    var o := RestoreOrigin(m.messageType, m.fromEmail, callerEmail);
    m.(folder := Some(OriginName(o)), folderId := MapFolder(fm, o))
  }

  /** The row after one SET clause. No SET clause writes a key column. */
  function Apply(a: Assign, m: Message): (r: Message)
    ensures r.id == m.id && r.userId == m.userId && r.threadId == m.threadId
    ensures r.messageId == m.messageId && r.fromEmail == m.fromEmail
  {
    match a
    case Relocate(n, f) => m.(folder := n, folderId := f)
    case Rename(n) => m.(folder := Some(n))
    case Refile(f) => m.(folderId := Some(f))
    case MarkRead(v) => m.(isRead := v)
    case MarkStarred(v) => m.(isStarred := v)
    case RestoreByType(s, d, i) =>
      var o := BatchOrigin(m.messageType);
      m.(folder := Some(OriginName(o)), folderId := Some(BatchFolderId(o, s, d, i)))
    case EditDraft(to, c) =>
      m.(toEmail := to,
         content := c.(isEncrypted := m.content.isEncrypted, hasAttachments := m.content.hasAttachments))
    case SendDraft(f, to, c) =>
      m.(folderId := Some(f), toEmail := to, content := c.(inReplyTo := m.content.inReplyTo),
         isDraft := false, messageType := Some("Sent"))
  }

  // ---------------------------------------------------------------------
  // Statements
  // ---------------------------------------------------------------------

  /** `UPDATE mailboxes SET a WHERE w`. */
  function UpdateWhere(rows: seq<Message>, w: Where, a: Assign): (r: seq<Message>)
    ensures |r| == |rows|
    ensures forall i :: 0 <= i < |rows| ==>
              r[i] == if Matches(w, rows[i]) then Apply(a, rows[i]) else rows[i]
  {
    if rows == [] then []
    else [if Matches(w, rows[0]) then Apply(a, rows[0]) else rows[0]] + UpdateWhere(rows[1..], w, a)
  }

  /** The rows `w` selects, in table order (a SELECT or the RETURNING list). */
  function Selected(rows: seq<Message>, w: Where): (r: seq<Message>)
    ensures forall m :: m in r <==> m in rows && Matches(w, m)
    ensures |r| <= |rows|
  {
    if rows == [] then []
    else (if Matches(w, rows[0]) then [rows[0]] else []) + Selected(rows[1..], w)
  }

  /** `rowCount` of a statement with WHERE clause `w`. */
  function CountWhere(rows: seq<Message>, w: Where): (n: nat)
    ensures n == |Selected(rows, w)|
    ensures n == 0 <==> forall m :: m in rows ==> !Matches(w, m)
  {
    var s := Selected(rows, w);
    if |s| > 0 then assert s[0] in s; |s| else |s|
  }

  /** `DELETE FROM mailboxes WHERE w`. */
  function DeleteWhere(rows: seq<Message>, w: Where): (r: seq<Message>)
    ensures forall m :: m in r <==> m in rows && !Matches(w, m)
    ensures |r| + CountWhere(rows, w) == |rows|
  {
    if rows == [] then []
    else (if Matches(w, rows[0]) then [] else [rows[0]]) + DeleteWhere(rows[1..], w)
  }

  function ThreadIds(rows: seq<Message>): (r: set<string>)
    ensures forall t :: t in r <==> exists m :: m in rows && m.threadId == t
  {
    set m | m in rows :: m.threadId
  }

  function MessageIds(rows: seq<Message>): (r: set<string>)
    ensures forall x :: x in r <==> exists m :: m in rows && m.messageId == x
  {
    set m | m in rows :: m.messageId
  }

  /** `ids.filter(id => !found.includes(id))`. */
  function Absent(ids: seq<string>, found: set<string>): (r: seq<string>)
    ensures forall x :: x in r <==> x in ids && x !in found
    ensures |r| <= |ids|
  {
    if ids == [] then []
    else (if ids[0] in found then [] else [ids[0]]) + Absent(ids[1..], found)
  }

  /** One `RETURNING thread_id, id` row. */
  datatype Returned = Returned(threadId: string, rowId: Id)

  function Returning(rows: seq<Message>): (r: seq<Returned>)
    ensures |r| == |rows|
    ensures forall i :: 0 <= i < |rows| ==> r[i] == Returned(rows[i].threadId, rows[i].id)
  {
    if rows == [] then [] else [Returned(rows[0].threadId, rows[0].id)] + Returning(rows[1..])
  }

  /**
   * The returned rows grouped by thread, as the handlers' `reduce` builds
   * them: every returned row is listed under its thread, and every listed
   * id was returned under that thread.
   */
  function GroupByThread(ret: seq<Returned>): (g: map<string, seq<Id>>)
    ensures forall i :: 0 <= i < |ret| ==> ret[i].threadId in g && ret[i].rowId in g[ret[i].threadId]
    ensures forall t, x :: t in g && x in g[t] ==> Returned(t, x) in ret
    ensures forall t :: t in g ==> g[t] != []
  {
    if ret == [] then map[]
    else
      var prefix := ret[..|ret| - 1];
      var last := ret[|ret| - 1];
      var g := GroupByThread(prefix);
      assert ret == prefix + [last];
      g[last.threadId := (if last.threadId in g then g[last.threadId] else []) + [last.rowId]]
  }

  /** One row of `SELECT thread_id, COUNT(*) ... GROUP BY thread_id`. */
  datatype ThreadCount = ThreadCount(threadId: string, count: nat)

  /** The sum the response should report: every group's count as a number. */
  function TotalCount(groups: seq<ThreadCount>): nat
  {
    if groups == [] then 0 else groups[0].count + TotalCount(groups[1..])
  }

  function GroupThreads(groups: seq<ThreadCount>): set<string>
  {
    set g | g in groups :: g.threadId
  }

  /** Count one more row of thread `t`. */
  function Tally(groups: seq<ThreadCount>, t: string): (r: seq<ThreadCount>)
    ensures TotalCount(r) == TotalCount(groups) + 1
    ensures GroupThreads(r) == GroupThreads(groups) + {t}
  {
    if groups == [] then [ThreadCount(t, 1)]
    else if groups[0].threadId == t then
      var r := [groups[0].(count := groups[0].count + 1)] + groups[1..];
      assert r[1..] == groups[1..];
      assert GroupThreads(groups) == {groups[0].threadId} + GroupThreads(groups[1..]);
      assert GroupThreads(r) == {t} + GroupThreads(groups[1..]);
      r
    else
      var r := [groups[0]] + Tally(groups[1..], t);
      assert r[1..] == Tally(groups[1..], t);
      assert GroupThreads(groups) == {groups[0].threadId} + GroupThreads(groups[1..]);
      assert GroupThreads(r) == {groups[0].threadId} + GroupThreads(Tally(groups[1..], t));
      r
  }

  /**
   * The grouped counts of the affected rows: one group per thread, and the
   * counts add up to the number of rows.
   */
  function GroupCounts(rows: seq<Message>): (g: seq<ThreadCount>)
    ensures TotalCount(g) == |rows|
    ensures GroupThreads(g) == ThreadIds(rows)
  {
    if rows == [] then []
    else
      var prefix := rows[..|rows| - 1];
      var last := rows[|rows| - 1];
      assert rows == prefix + [last];
      assert ThreadIds(rows) == ThreadIds(prefix) + {last.threadId};
      Tally(GroupCounts(prefix), last.threadId)
  }

  /**
   * `groups.reduce((sum, row) => sum + row.count, 0)` as written: the driver
   * returns each COUNT(*) as a string, so the sum is string concatenation.
   */
  function SumCountsAsWritten(groups: seq<ThreadCount>): JsValue
  {
    if groups == [] then JsNumber(0)
    else JsAdd(SumCountsAsWritten(groups[..|groups| - 1]), JsString(Decimal(groups[|groups| - 1].count)))
  }

  // ---------------------------------------------------------------------
  // Folder lookups
  // ---------------------------------------------------------------------

  predicate IsFolderOf(f: Folder, userId: string, kind: string)
  {
    f.userId == userId && f.kind == kind
  }

  /** `SELECT folder_id FROM folders WHERE user_id = $1 AND type = $2`, first row. */
  function FirstFolder(folders: seq<Folder>, userId: string, kind: string): (r: Option<Id>)
    ensures r.None? <==> forall f :: f in folders ==> !IsFolderOf(f, userId, kind)
    ensures r.Some? ==> exists f :: f in folders && IsFolderOf(f, userId, kind) && f.folderId == r.value
  {
    if folders == [] then None
    else if IsFolderOf(folders[0], userId, kind) then Some(folders[0].folderId)
    else FirstFolder(folders[1..], userId, kind)
  }

  /** The same lookup keyed into a map by `forEach`/`reduce`: the last row wins. */
  function LastFolder(folders: seq<Folder>, userId: string, kind: string): (r: Option<Id>)
    ensures r.None? <==> forall f :: f in folders ==> !IsFolderOf(f, userId, kind)
    ensures r.Some? ==> exists f :: f in folders && IsFolderOf(f, userId, kind) && f.folderId == r.value
  {
    if folders == [] then None
    else
      var prefix := folders[..|folders| - 1];
      var last := folders[|folders| - 1];
      assert folders == prefix + [last];
      if IsFolderOf(last, userId, kind) then Some(last.folderId)
      else LastFolder(prefix, userId, kind)
  }

  /** The ids of every folder of a type, whoever owns it (the JOIN in the restore checks). */
  function KindIds(folders: seq<Folder>, kind: string): (r: set<Id>)
    ensures forall x :: x in r <==> exists f :: f in folders && f.kind == kind && f.folderId == x
  {
    set f | f in folders && f.kind == kind :: f.folderId
  }

  predicate OwnsFolder(folders: seq<Folder>, userId: string, id: Id)
  {
    exists f :: f in folders && f.userId == userId && f.folderId == id
  }

  /** `WHERE user_id = $1 AND (name = $2 OR type = $2)`, first row. */
  function FolderByNameOrType(folders: seq<Folder>, userId: string, x: string): (r: Option<Folder>)
    ensures r.Some? ==> r.value in folders && r.value.userId == userId && (r.value.name == x || r.value.kind == x)
    ensures r.None? <==> forall f :: f in folders ==> !(f.userId == userId && (f.name == x || f.kind == x))
  {
    if folders == [] then None
    else if folders[0].userId == userId && (folders[0].name == x || folders[0].kind == x) then Some(folders[0])
    else FolderByNameOrType(folders[1..], userId, x)
  }

  /**
   * `WHERE user_id = $1 AND (name ILIKE $2 OR type ILIKE $2)`, first row:
   * the requested folder is a pattern, so `%` and `_` in it are wildcards.
   */
  function FolderByNameOrTypeIgnoringCase(folders: seq<Folder>, userId: string, x: string): (r: Option<Folder>)
    ensures r.Some? ==> r.value in folders && r.value.userId == userId
                        && (ILike(r.value.name, x) || ILike(r.value.kind, x))
    ensures r.None? <==> forall f :: f in folders ==>
                           !(f.userId == userId && (ILike(f.name, x) || ILike(f.kind, x)))
  {
    if folders == [] then None
    else if folders[0].userId == userId
            && (ILike(folders[0].name, x) || ILike(folders[0].kind, x))
    then Some(folders[0])
    else FolderByNameOrTypeIgnoringCase(folders[1..], userId, x)
  }

  /** A requested folder without wildcards selects the caller's first folder whose name or type equals it in any case. */
  lemma PlainFolderRequestIgnoresCase(folders: seq<Folder>, userId: string, x: string, f: Folder)
    requires Plain(x)
    requires f in folders && f.userId == userId && EqualsIgnoringCase(f.kind, x)
    ensures FolderByNameOrTypeIgnoringCase(folders, userId, x).Some?
    ensures var g := FolderByNameOrTypeIgnoringCase(folders, userId, x).value;
            EqualsIgnoringCase(g.name, x) || EqualsIgnoringCase(g.kind, x)
  {
    PlainILikeIsEqualityIgnoringCase(f.kind, x);
    var g := FolderByNameOrTypeIgnoringCase(folders, userId, x).value;
    PlainILikeIsEqualityIgnoringCase(g.name, x);
    PlainILikeIsEqualityIgnoringCase(g.kind, x);
  }

  /** A wildcard reaches a folder whose name only starts like the request: `Arch%` finds `Archive`. */
  lemma WildcardRequestFindsFolder(f: Folder)
    requires f.name == "Archive"
    ensures FolderByNameOrTypeIgnoringCase([f], f.userId, "Arch%") == Some(f)
    ensures !EqualsIgnoringCase(f.name, "Arch%")
  {
    ArchiveMatchesPrefixPattern();
    assert |Lower("Archive")| != |Lower("Arch%")|;
    assert FolderByNameOrTypeIgnoringCase([f], f.userId, "Arch%")
           == if ILike(f.name, "Arch%") || ILike(f.kind, "Arch%") then Some(f) else None;
  }

  lemma ArchiveMatchesPrefixPattern()
    ensures ILike("Archive", "Arch%")
  {
    assert Lower("Archive") == "archive";
    assert Lower("Arch%") == "arch" + "%";
    PlainLikeIsPrefix("archive", "arch");
  }

  // ---------------------------------------------------------------------
  // Row-id uniqueness
  // ---------------------------------------------------------------------

  predicate UniqueRowIds(rows: seq<Message>)
  {
    forall i, j :: 0 <= i < j < |rows| ==> rows[i].id != rows[j].id
  }

  /** A fresh serial value: larger than every id in the table. */
  function NextRowId(rows: seq<Message>): (r: Id)
    ensures forall m :: m in rows ==> m.id < r
  {
    if rows == [] then 1
    else
      var rest := NextRowId(rows[1..]);
      if rows[0].id < rest then rest else rows[0].id + 1
  }

  /** The folder type a per-thread restore looks up for an origin. */
  function OriginKind(o: Origin): string
  {
    match o
    case Inbox => "inbox"
    case Sent => "sent"
    case Drafts => "drafts"
  }

  /** The `folderMap` a per-thread restore builds with `forEach`: the last folder of each type wins. */
  function SystemFolderMap(folders: seq<Folder>, userId: string): FolderMap
  {
    FolderMap(LastFolder(folders, userId, "inbox"), LastFolder(folders, userId, "sent"),
              LastFolder(folders, userId, "drafts"))
  }

  /** The table after a per-thread restore loop has handled every row `w` selects. */
  function RestoreWhere(rows: seq<Message>, w: Where, callerEmail: string, fm: FolderMap): (r: seq<Message>)
    ensures |r| == |rows|
    ensures forall i :: 0 <= i < |rows| ==>
              r[i] == if Matches(w, rows[i]) then RestoreRow(rows[i], callerEmail, fm) else rows[i]
  {
    if rows == [] then []
    else [if Matches(w, rows[0]) then RestoreRow(rows[0], callerEmail, fm) else rows[0]]
         + RestoreWhere(rows[1..], w, callerEmail, fm)
  }

  /** How many of `rows` a per-thread restore sends to origin `o` (the `restorationStats` counters). */
  function OriginCount(rows: seq<Message>, callerEmail: string, o: Origin): nat
  {
    if rows == [] then 0
    else
      var last := rows[|rows| - 1];
      OriginCount(rows[..|rows| - 1], callerEmail, o)
      + (if RestoreOrigin(last.messageType, last.fromEmail, callerEmail) == o then 1 else 0)
  }

  /** `m` sits where a per-thread restore would put it. */
  predicate AtOrigin(m: Message, callerEmail: string, fm: FolderMap)
  {
    var o := RestoreOrigin(m.messageType, m.fromEmail, callerEmail);
    m.folder == Some(OriginName(o)) && m.folderId == MapFolder(fm, o)
  }

  /** The message ids of the rows, in order (`rows.map(row => row.message_id)`). */
  function MessageIdList(rows: seq<Message>): (r: seq<string>)
    ensures |r| == |rows|
    ensures forall i :: 0 <= i < |rows| ==> r[i] == rows[i].messageId
  {
    if rows == [] then [] else [rows[0].messageId] + MessageIdList(rows[1..])
  }

  // ---------------------------------------------------------------------
  // Helpers for the lemmas
  // ---------------------------------------------------------------------

  lemma ConcatAssoc(a: seq<Message>, b: seq<Message>, c: seq<Message>)
    ensures (a + b) + c == a + (b + c)
  {
  }

  lemma SelectedCons(x: Message, rest: seq<Message>, w: Where)
    ensures Selected([x] + rest, w) == (if Matches(w, x) then [x] else []) + Selected(rest, w)
  {
    assert ([x] + rest)[0] == x && ([x] + rest)[1..] == rest;
  }

  lemma {:induction false} SelectedAppend(rows: seq<Message>, m: Message, w: Where)
    ensures Selected(rows + [m], w) == Selected(rows, w) + (if Matches(w, m) then [m] else [])
    decreases |rows|
  {
    if rows == [] {
      assert rows + [m] == [m] + [];
      SelectedCons(m, [], w);
    } else {
      var head := if Matches(w, rows[0]) then [rows[0]] else [];
      var tail := if Matches(w, m) then [m] else [];
      assert Selected(rows + [m], w) == head + (Selected(rows[1..], w) + tail) by {
        assert rows + [m] == [rows[0]] + (rows[1..] + [m]);
        SelectedCons(rows[0], rows[1..] + [m], w);
        SelectedAppend(rows[1..], m, w);
      }
      assert Selected(rows, w) == head + Selected(rows[1..], w) by {
        assert rows == [rows[0]] + rows[1..];
        SelectedCons(rows[0], rows[1..], w);
      }
      ConcatAssoc(head, Selected(rows[1..], w), tail);
    }
  }

  lemma SameIdSameRow(rows: seq<Message>, m: Message, k: int)
    requires UniqueRowIds(rows) && m in rows
    requires 0 <= k < |rows| && rows[k].id == m.id
    ensures rows[k] == m
  {
    var j :| 0 <= j < |rows| && rows[j] == m;
    assert !(j < k) && !(k < j);
  }

  lemma UpdateKeepsRowIds(rows: seq<Message>, w: Where, a: Assign)
    requires UniqueRowIds(rows)
    ensures UniqueRowIds(UpdateWhere(rows, w, a))
  {
    var r := UpdateWhere(rows, w, a);
    assert forall i :: 0 <= i < |rows| ==> r[i].id == rows[i].id;
  }

  /** The table once a per-thread restore loop has handled the rows in `done`. */
  function RestoredFor(rows: seq<Message>, done: seq<Message>, callerEmail: string, fm: FolderMap): (r: seq<Message>)
    ensures |r| == |rows|
    ensures forall k :: 0 <= k < |rows| ==>
              r[k] == if rows[k] in done then RestoreRow(rows[k], callerEmail, fm) else rows[k]
  {
    if rows == [] then []
    else [if rows[0] in done then RestoreRow(rows[0], callerEmail, fm) else rows[0]]
         + RestoredFor(rows[1..], done, callerEmail, fm)
  }

  lemma RestoredForNothing(rows: seq<Message>, callerEmail: string, fm: FolderMap)
    ensures RestoredFor(rows, [], callerEmail, fm) == rows
  {
  }

  /**
   * One iteration of a per-thread restore loop: once the rows in `done`
   * are restored, updating `row` by id and owner restores `done + [row]`.
   */
  lemma RestoreStep(before: seq<Message>, done: seq<Message>, row: Message,
                    userId: string, callerEmail: string, fm: FolderMap)
    requires UniqueRowIds(before) && row in before && row.userId == userId
    ensures UpdateWhere(RestoredFor(before, done, callerEmail, fm), RowOfUser(row.id, userId),
                        RestoreAssign(row, callerEmail, fm))
            == RestoredFor(before, done + [row], callerEmail, fm)
  {
    var next := UpdateWhere(RestoredFor(before, done, callerEmail, fm), RowOfUser(row.id, userId),
                            RestoreAssign(row, callerEmail, fm));
    var want := RestoredFor(before, done + [row], callerEmail, fm);
    forall k | 0 <= k < |before| ensures next[k] == want[k] {
      RestoreStepAt(before, done, row, userId, callerEmail, fm, k);
    }
  }

  /** The step of the restore loop, stated on the prefixes of the checked rows. */
  lemma RestoreNext(before: seq<Message>, check: seq<Message>, i: nat, userId: string, callerEmail: string, fm: FolderMap)
    requires UniqueRowIds(before) && i < |check| && check[i] in before && check[i].userId == userId
    ensures UpdateWhere(RestoredFor(before, check[..i], callerEmail, fm), RowOfUser(check[i].id, userId),
                        RestoreAssign(check[i], callerEmail, fm))
            == RestoredFor(before, check[..i + 1], callerEmail, fm)
  {
    RestoreStep(before, check[..i], check[i], userId, callerEmail, fm);
    TakeOneMore(check, i);
  }

  lemma RestoreStepAt(before: seq<Message>, done: seq<Message>, row: Message,
                      userId: string, callerEmail: string, fm: FolderMap, k: int)
    requires UniqueRowIds(before) && row in before && row.userId == userId
    requires 0 <= k < |before|
    ensures UpdateWhere(RestoredFor(before, done, callerEmail, fm), RowOfUser(row.id, userId),
                        RestoreAssign(row, callerEmail, fm))[k]
            == RestoredFor(before, done + [row], callerEmail, fm)[k]
  {
    if before[k].id == row.id {
      RestoreStepHit(before, done, row, userId, callerEmail, fm, k);
    } else {
      RestoreStepMissUpdate(before, done, row, userId, callerEmail, fm, k);
      RestoreStepMissDone(before, done, row, callerEmail, fm, k);
    }
  }

  lemma RestoreStepHit(before: seq<Message>, done: seq<Message>, row: Message,
                       userId: string, callerEmail: string, fm: FolderMap, k: int)
    requires UniqueRowIds(before) && row in before && row.userId == userId
    requires 0 <= k < |before| && before[k].id == row.id
    ensures UpdateWhere(RestoredFor(before, done, callerEmail, fm), RowOfUser(row.id, userId),
                        RestoreAssign(row, callerEmail, fm))[k]
            == RestoredFor(before, done + [row], callerEmail, fm)[k]
  {
    SameIdSameRow(before, row, k);
    var cur := RestoredFor(before, done, callerEmail, fm);
    RestoreStepHitUpdate(cur, row, userId, callerEmail, fm, k);
    RestoreRowAgain(row, cur[k], callerEmail, fm);
    assert before[k] in done + [row];
  }

  lemma RestoreStepHitUpdate(cur: seq<Message>, row: Message, userId: string, callerEmail: string, fm: FolderMap, k: int)
    requires 0 <= k < |cur| && cur[k].id == row.id && cur[k].userId == userId
    ensures UpdateWhere(cur, RowOfUser(row.id, userId), RestoreAssign(row, callerEmail, fm))[k]
            == Apply(RestoreAssign(row, callerEmail, fm), cur[k])
  {
    assert Matches(RowOfUser(row.id, userId), cur[k]);
  }

  /** Restoring a row that is either untouched or already restored gives the restored row. */
  lemma RestoreRowAgain(row: Message, m: Message, callerEmail: string, fm: FolderMap)
    requires m == row || m == RestoreRow(row, callerEmail, fm)
    ensures Apply(RestoreAssign(row, callerEmail, fm), m) == RestoreRow(row, callerEmail, fm)
  {
  }

  lemma RestoreStepMissUpdate(before: seq<Message>, done: seq<Message>, row: Message,
                              userId: string, callerEmail: string, fm: FolderMap, k: int)
    requires 0 <= k < |before| && before[k].id != row.id
    ensures UpdateWhere(RestoredFor(before, done, callerEmail, fm), RowOfUser(row.id, userId),
                        RestoreAssign(row, callerEmail, fm))[k]
            == RestoredFor(before, done, callerEmail, fm)[k]
  {
    var cur := RestoredFor(before, done, callerEmail, fm);
    assert cur[k].id == before[k].id;
    assert !Matches(RowOfUser(row.id, userId), cur[k]);
  }

  lemma RestoreStepMissDone(before: seq<Message>, done: seq<Message>, row: Message,
                            callerEmail: string, fm: FolderMap, k: int)
    requires 0 <= k < |before| && before[k].id != row.id
    ensures RestoredFor(before, done + [row], callerEmail, fm)[k] == RestoredFor(before, done, callerEmail, fm)[k]
  {
  }

  /** When the loop has handled every selected row, the table is `RestoreWhere` of the old one. */
  lemma RestoreLoopDone(before: seq<Message>, w: Where, callerEmail: string, fm: FolderMap)
    ensures RestoredFor(before, Selected(before, w), callerEmail, fm) == RestoreWhere(before, w, callerEmail, fm)
  {
    var a := RestoredFor(before, Selected(before, w), callerEmail, fm);
    var b := RestoreWhere(before, w, callerEmail, fm);
    forall k | 0 <= k < |before| ensures a[k] == b[k] {
      assert before[k] in before;
    }
  }

  lemma RestoreKeepsRowIds(rows: seq<Message>, w: Where, callerEmail: string, fm: FolderMap)
    requires UniqueRowIds(rows)
    ensures UniqueRowIds(RestoreWhere(rows, w, callerEmail, fm))
  {
    var r := RestoreWhere(rows, w, callerEmail, fm);
    assert forall i :: 0 <= i < |rows| ==> r[i].id == rows[i].id;
  }

  lemma TakeOneMore(rows: seq<Message>, i: nat)
    requires i < |rows|
    ensures rows[..i + 1] == rows[..i] + [rows[i]]
  {
  }

  lemma OriginCountStep(rows: seq<Message>, i: nat, callerEmail: string, o: Origin)
    requires i < |rows|
    ensures OriginCount(rows[..i + 1], callerEmail, o)
            == OriginCount(rows[..i], callerEmail, o)
               + (if RestoreOrigin(rows[i].messageType, rows[i].fromEmail, callerEmail) == o then 1 else 0)
  {
    assert rows[..i + 1][..i] == rows[..i];
  }

  /** The three counters after one more row, given that row's origin `o`. */
  lemma OriginCountsStep(rows: seq<Message>, i: nat, callerEmail: string, o: Origin)
    requires i < |rows| && o == RestoreOrigin(rows[i].messageType, rows[i].fromEmail, callerEmail)
    ensures OriginCount(rows[..i + 1], callerEmail, Inbox) == OriginCount(rows[..i], callerEmail, Inbox) + (if o == Inbox then 1 else 0)
    ensures OriginCount(rows[..i + 1], callerEmail, Sent) == OriginCount(rows[..i], callerEmail, Sent) + (if o == Sent then 1 else 0)
    ensures OriginCount(rows[..i + 1], callerEmail, Drafts) == OriginCount(rows[..i], callerEmail, Drafts) + (if o == Drafts then 1 else 0)
  {
    OriginCountStep(rows, i, callerEmail, Inbox);
    OriginCountStep(rows, i, callerEmail, Sent);
    OriginCountStep(rows, i, callerEmail, Drafts);
  }

  lemma {:induction false} DeleteKeepsRowIds(rows: seq<Message>, w: Where)
    requires UniqueRowIds(rows)
    ensures UniqueRowIds(DeleteWhere(rows, w))
    decreases |rows|
  {
    if rows != [] {
      assert UniqueRowIds(rows[1..]);
      DeleteKeepsRowIds(rows[1..], w);
      var d := DeleteWhere(rows[1..], w);
      if !Matches(w, rows[0]) {
        assert DeleteWhere(rows, w) == [rows[0]] + d;
        PrependKeepsRowIds(rows, d);
      } else {
        assert DeleteWhere(rows, w) == d;
      }
    }
  }

  lemma PrependKeepsRowIds(rows: seq<Message>, d: seq<Message>)
    requires UniqueRowIds(rows) && rows != []
    requires UniqueRowIds(d)
    requires forall m :: m in d ==> m in rows[1..]
    ensures UniqueRowIds([rows[0]] + d)
  {
    var rest := rows[1..];
    var r := [rows[0]] + d;
    forall i, j | 0 <= i < j < |r| ensures r[i].id != r[j].id {
      if i == 0 {
        assert r[j] == d[j - 1] && d[j - 1] in d;
        var k :| 0 <= k < |rest| && rest[k] == d[j - 1];
        assert rows[k + 1] == r[j];
      } else {
        assert r[i] == d[i - 1] && r[j] == d[j - 1];
      }
    }
  }

  lemma InsertKeepsRowIds(rows: seq<Message>, m: Message)
    requires UniqueRowIds(rows) && m.id == NextRowId(rows)
    ensures UniqueRowIds(rows + [m])
  {
    forall i | 0 <= i < |rows| ensures rows[i].id != m.id {
      assert rows[i] in rows;
    }
  }

  // ---------------------------------------------------------------------
  // Properties of the statements
  // ---------------------------------------------------------------------

  /** Every SET clause is idempotent on a row. */
  lemma ApplyIdempotent(a: Assign, m: Message)
    ensures Apply(a, Apply(a, m)) == Apply(a, m)
  {
  }

  /**
   * Running any of the controller's UPDATE statements a second time changes
   * nothing more: repeating a move, a restore or a flag change is harmless.
   */
  lemma UpdateIdempotent(rows: seq<Message>, w: Where, a: Assign)
    ensures UpdateWhere(UpdateWhere(rows, w, a), w, a) == UpdateWhere(rows, w, a)
  {
    var once := UpdateWhere(rows, w, a);
    var twice := UpdateWhere(once, w, a);
    forall i | 0 <= i < |rows| ensures twice[i] == once[i] {
      ApplyIdempotent(a, rows[i]);
    }
  }

  /** The user a WHERE clause is scoped to, when it has a `user_id = $n` conjunct. */
  function ScopeOwner(w: Where): Option<string>
  {
    match w
    case MessageOfUser(_, uid) => Some(uid)
    case ThreadOfUser(_, uid) => Some(uid)
    case ThreadsOfUser(_, uid) => Some(uid)
    case MessagesOfUser(_, uid) => Some(uid)
    case ThreadsOfUserIn(_, uid, _) => Some(uid)
    case MessagesOfUserIn(_, uid, _) => Some(uid)
    case ThreadOfUserInAny(_, uid, _) => Some(uid)
    case MessageOfUserInAny(_, uid, _) => Some(uid)
    case DraftOfUser(_, uid) => Some(uid)
    case DraftsOfUser(_, uid) => Some(uid)
    case RowOfUser(_, uid) => Some(uid)
    case SenderOfUser(_, uid) => Some(uid)
    case _ => None
  }

  /** A statement scoped to a user leaves every other user's rows as they were. */
  lemma ScopedStatementsSpareOtherUsers(rows: seq<Message>, w: Where, a: Assign)
    requires ScopeOwner(w).Some?
    ensures forall i :: 0 <= i < |rows| && rows[i].userId != ScopeOwner(w).value ==>
              UpdateWhere(rows, w, a)[i] == rows[i]
    ensures forall m :: m in rows && m.userId != ScopeOwner(w).value ==> m in DeleteWhere(rows, w)
  {
  }

  /**
   * A clause scoped by address instead of by owner reaches the other
   * party's copy: deleting "my" threads by address also deletes the copy
   * the recipient owns.
   */
  lemma PartyScopeReachesRecipientCopy(t: string, senderEmail: string, recipientCopy: Message)
    requires recipientCopy.threadId == t && recipientCopy.fromEmail == senderEmail
    ensures ScopeOwner(ThreadsOfParty([t], senderEmail)).None?
    ensures recipientCopy !in DeleteWhere([recipientCopy], ThreadsOfParty([t], senderEmail))
  {
  }

  // ---------------------------------------------------------------------
  // Properties of the restore inference
  // ---------------------------------------------------------------------

  /** The per-thread inference sees `message_type` only through its lower-case form. */
  lemma RestoreOriginIgnoresCase(messageType: string, fromEmail: string, callerEmail: string)
    ensures RestoreOrigin(Some(messageType), fromEmail, callerEmail)
            == RestoreOrigin(Some(Lower(messageType)), fromEmail, callerEmail)
  {
    LowerTwice(messageType);
  }

  /** On lower-case types and mail the caller did not send, both inferences agree. */
  lemma InferencesAgreeOnLowerCaseForeignMail(messageType: Option<string>, fromEmail: string, callerEmail: string)
    requires fromEmail != callerEmail
    requires messageType.Some? ==> Lower(messageType.value) == messageType.value
    ensures RestoreOrigin(messageType, fromEmail, callerEmail) == BatchOrigin(messageType)
  {
  }

  /**
   * The send handler stores `message_type` as "Sent": the per-thread
   * restores bring such a message back to Sent, the batch restores to Inbox.
   */
  lemma CapitalisedSentDiverges(fromEmail: string, callerEmail: string)
    ensures RestoreOrigin(Some("Sent"), fromEmail, callerEmail) == Sent
    ensures BatchOrigin(Some("Sent")) == Inbox
  {
    assert Lower("Sent") == "sent" by {
      assert Lower("Sent")[0] == 's';
    }
  }

  /**
   * The draft handler stores `message_type` as "drafts", which is not
   * "draft": no restore ever sends a saved draft back to Drafts. The
   * per-thread restores send it to Sent, because its sender is the caller.
   */
  lemma SavedDraftNeverRestoredToDrafts(callerEmail: string)
    ensures RestoreOrigin(Some("drafts"), callerEmail, callerEmail) == Sent
    ensures BatchOrigin(Some("drafts")) == Inbox
  {
  }

  /** The caller's own messages always go back to Sent in the per-thread restores. */
  lemma OwnMailRestoresToSent(messageType: Option<string>, callerEmail: string)
    ensures RestoreOrigin(messageType, callerEmail, callerEmail) == Sent
  {
  }

  /**
   * A received message moved to Trash and restored comes back exactly as it
   * was, provided it sat in the inbox the restore looks up.
   */
  lemma TrashRoundTripForReceivedMail(m: Message, callerEmail: string, fm: FolderMap, trashId: Id)
    requires m.fromEmail != callerEmail
    requires m.messageType.Some? ==> Lower(m.messageType.value) != "sent" && Lower(m.messageType.value) != "draft"
    requires m.folder == Some("Inbox") && m.folderId == fm.inbox
    ensures RestoreRow(Apply(Relocate(Some("Trash"), Some(trashId)), m), callerEmail, fm) == m
  {
  }

  /** Likewise a message the caller sent, filed in the Sent folder. */
  lemma TrashRoundTripForOwnMail(m: Message, callerEmail: string, fm: FolderMap, trashId: Id)
    requires m.fromEmail == callerEmail
    requires m.folder == Some("Sent") && m.folderId == fm.sent
    ensures RestoreRow(Apply(Relocate(Some("Trash"), Some(trashId)), m), callerEmail, fm) == m
  {
  }

  /**
   * The batch restore does not undo an archive move for mail the send
   * handler stored: it lands in the inbox.
   */
  lemma BatchRestoreMisfilesSentMail(m: Message, archiveId: Id, sentId: Id, draftsId: Option<Id>, inboxId: Id)
    requires m.messageType == Some("Sent") && m.folder == Some("Sent") && m.folderId == Some(sentId)
    requires sentId != inboxId
    ensures var back := Apply(RestoreByType(sentId, draftsId, inboxId), Apply(Relocate(Some("Archive"), Some(archiveId)), m));
            back.folder == Some("Inbox") && back.folderId == Some(inboxId) && back != m
  {
  }

  /** The three restoration counters add up to the number of rows restored. */
  lemma {:induction false} OriginCountsAddUp(rows: seq<Message>, callerEmail: string)
    ensures OriginCount(rows, callerEmail, Inbox) + OriginCount(rows, callerEmail, Sent)
            + OriginCount(rows, callerEmail, Drafts) == |rows|
  {
    if rows != [] {
      OriginCountsAddUp(rows[..|rows| - 1], callerEmail);
    }
  }

  /**
   * Moving a whole thread of the caller's into a folder (Trash or Archive)
   * and restoring that thread from it gives back the table as it was, when
   * every row of the thread sat where the restore infers it came from.
   */
  lemma MoveThenRestoreThread(rows: seq<Message>, t: string, userId: string, callerEmail: string,
                              fm: FolderMap, name: string, folderId: Id, sourceIds: set<Id>)
    requires folderId in sourceIds
    requires forall m :: m in rows && Matches(ThreadOfUser(t, userId), m) ==> AtOrigin(m, callerEmail, fm)
    ensures RestoreWhere(UpdateWhere(rows, ThreadOfUser(t, userId), Relocate(Some(name), Some(folderId))),
                         ThreadOfUserInAny(t, userId, sourceIds), callerEmail, fm) == rows
  {
    var moved := UpdateWhere(rows, ThreadOfUser(t, userId), Relocate(Some(name), Some(folderId)));
    var back := RestoreWhere(moved, ThreadOfUserInAny(t, userId, sourceIds), callerEmail, fm);
    forall i | 0 <= i < |rows| ensures back[i] == rows[i] {
      if Matches(ThreadOfUser(t, userId), rows[i]) {
        assert rows[i] in rows;
        MovedRowRestored(rows[i], t, userId, callerEmail, fm, name, folderId, sourceIds);
      }
    }
  }

  /** One row of `MoveThenRestoreThread`: a moved row at its origin comes back unchanged. */
  lemma MovedRowRestored(m: Message, t: string, userId: string, callerEmail: string,
                         fm: FolderMap, name: string, folderId: Id, sourceIds: set<Id>)
    requires folderId in sourceIds
    requires Matches(ThreadOfUser(t, userId), m) && AtOrigin(m, callerEmail, fm)
    ensures var moved := Apply(Relocate(Some(name), Some(folderId)), m);
            Matches(ThreadOfUserInAny(t, userId, sourceIds), moved) && RestoreRow(moved, callerEmail, fm) == m
  {
  }

  /** After a read-status change, no row is left for the same request to change: a repeat finds nothing. */
  lemma ReadChangeSettles(rows: seq<Message>, threadIds: seq<string>, email: string, isRead: bool)
    ensures CountWhere(UpdateWhere(rows, ReadChange(threadIds, email, isRead), MarkRead(isRead)),
                       ReadChange(threadIds, email, isRead)) == 0
  {
    var after := UpdateWhere(rows, ReadChange(threadIds, email, isRead), MarkRead(isRead));
    forall m | m in after ensures !Matches(ReadChange(threadIds, email, isRead), m) {
      var i :| 0 <= i < |after| && after[i] == m;
    }
  }

  // ---------------------------------------------------------------------
  // Properties of the folder lookups
  // ---------------------------------------------------------------------

  predicate AtMostOneFolderOfKind(folders: seq<Folder>, userId: string, kind: string)
  {
    forall i, j ::
      (0 <= i < |folders| && 0 <= j < |folders|
       && IsFolderOf(folders[i], userId, kind) && IsFolderOf(folders[j], userId, kind)) ==> i == j
  }

  /**
   * The `rows[0]` lookups and the lookups through a `forEach`/`reduce` map
   * pick the same folder when a user has at most one folder of the type.
   */
  lemma {:induction false} FirstAndLastFolderAgree(folders: seq<Folder>, userId: string, kind: string)
    requires AtMostOneFolderOfKind(folders, userId, kind)
    ensures FirstFolder(folders, userId, kind) == LastFolder(folders, userId, kind)
    decreases |folders|
  {
    if folders != [] {
      var prefix := folders[..|folders| - 1];
      var last := folders[|folders| - 1];
      assert folders == prefix + [last];
      assert AtMostOneFolderOfKind(prefix, userId, kind);
      FirstAndLastFolderAgree(prefix, userId, kind);
      if IsFolderOf(last, userId, kind) {
        assert forall f :: f in prefix ==> !IsFolderOf(f, userId, kind) by {
          forall f | f in prefix ensures !IsFolderOf(f, userId, kind) {
            var i :| 0 <= i < |prefix| && prefix[i] == f;
            assert folders[i] == f;
          }
        }
        FirstFolderSkips(prefix, last, userId, kind);
      } else {
        FirstFolderSkips(prefix, last, userId, kind);
      }
    }
  }

  lemma {:induction false} FirstFolderSkips(prefix: seq<Folder>, last: Folder, userId: string, kind: string)
    ensures FirstFolder(prefix + [last], userId, kind)
            == if FirstFolder(prefix, userId, kind).Some? then FirstFolder(prefix, userId, kind)
               else if IsFolderOf(last, userId, kind) then Some(last.folderId) else None
    decreases |prefix|
  {
    if prefix != [] {
      assert (prefix + [last])[1..] == prefix[1..] + [last];
      FirstFolderSkips(prefix[1..], last, userId, kind);
    }
  }

  // ---------------------------------------------------------------------
  // The e-mail totals of the batch delete and batch archive restore
  // ---------------------------------------------------------------------

  function Decimals(groups: seq<ThreadCount>): string
  {
    if groups == [] then "" else Decimals(groups[..|groups| - 1]) + Decimal(groups[|groups| - 1].count)
  }

  /**
   * As written, the total of any non-empty grouping is the text "0"
   * followed by the counts' digits, never the number of e-mails.
   */
  lemma {:induction false} AsWrittenTotalIsText(groups: seq<ThreadCount>)
    requires groups != []
    ensures SumCountsAsWritten(groups) == JsString("0" + Decimals(groups))
    decreases |groups|
  {
    var prefix := groups[..|groups| - 1];
    var d := Decimal(groups[|groups| - 1].count);
    assert SumCountsAsWritten(groups) == JsAdd(SumCountsAsWritten(prefix), JsString(d));
    assert Decimals(groups) == Decimals(prefix) + d;
    if prefix == [] {
      assert Decimals(groups) == "" + d;
      ZeroPlusText(d);
      assert "" + d == d;
    } else {
      AsWrittenTotalIsText(prefix);
      TextAssoc("0", Decimals(prefix), d);
    }
  }

  lemma ZeroPlusText(s: string)
    ensures JsAdd(JsNumber(0), JsString(s)) == JsString("0" + s)
  {
    assert Decimal(0) == "0";
  }

  lemma TextAssoc(a: string, b: string, c: string)
    ensures (a + b) + c == a + (b + c)
  {
  }

  /** Two threads with 2 and 3 e-mails: the response says "023" instead of 5. */
  lemma AsWrittenTotalCounterexample()
    ensures var groups := [ThreadCount("a", 2), ThreadCount("b", 3)];
            SumCountsAsWritten(groups) == JsString("023") && TotalCount(groups) == 5
  {
    var groups := [ThreadCount("a", 2), ThreadCount("b", 3)];
    assert groups[..1] == [ThreadCount("a", 2)];
    assert groups[..1][..0] == [];
    AsWrittenTotalIsText(groups);
    assert Decimals(groups) == "23";
  }
}
