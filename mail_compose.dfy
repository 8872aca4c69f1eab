/**
 * The rows the e-mail controller writes when it saves a draft or stores a
 * sent message, and the shapes of the batch handlers' responses.
 */
module MailCompose {
  import opened Common
  import opened Accounts
  import opened MailRows

  // ---------------------------------------------------------------------
  // Drafts
  // ---------------------------------------------------------------------

  /**
   * The body of a save-draft request with its defaults applied: an absent
   * text field is "", an absent `message_id` or `thread_id` is "".
   */
  datatype DraftRequest = DraftRequest(
    to: string,
    cc: string,
    bcc: string,
    subject: string,
    body: string,
    plainText: string,
    inReplyTo: Option<string>,
    messageId: string,
    threadId: string,
    attachments: string)

  /** `NULLIF($n, '')`. */
  function NullIfEmpty(s: string): (r: Option<string>)
    ensures r.None? <==> s == []
    ensures r.Some? ==> r.value == s
  {
    if s == [] then None else Some(s)
  }

  /** `v && v.trim() !== ""`: the field holds something other than whitespace. */
  predicate HasText(s: string)
  {
    Trim(s) != []
  }

  /** A draft is saved only when it has some content or some recipient. */
  predicate HasDraftText(d: DraftRequest)
  {
    HasText(d.subject) || HasText(d.body) || HasText(d.plainText)
    || HasText(d.to) || HasText(d.cc) || HasText(d.bcc)
  }

  /** The body columns a draft save writes; the encryption and attachment flags keep their defaults. */
  function DraftContent(d: DraftRequest): Content
  {
    Content(d.subject, d.body, d.plainText, NullIfEmpty(d.cc), NullIfEmpty(d.bcc), d.inReplyTo,
            d.attachments, false, false)
  }

  /** The row a first save of a draft inserts: read, not starred, a draft of type `drafts` in the Drafts folder. */
  function NewDraftRow(id: Id, u: User, draftsId: Id, threadId: string, messageId: string, d: DraftRequest): (r: Message)
    ensures r.isDraft && r.isRead && !r.isStarred && r.userId == u.id
    ensures r.folderId == Some(draftsId) && r.folder == Some("Drafts")
    ensures BatchOrigin(r.messageType) == Inbox && RestoreOrigin(r.messageType, r.fromEmail, u.email) == Sent
  {
    Message(id, u.id, threadId, messageId, Some("Drafts"), Some(draftsId), Some("drafts"), u.email,
            NullIfEmpty(d.to), true, false, true, DraftContent(d))
  }

  /** The Drafts folder a save creates for an account that has none. */
  function DraftsFolder(id: Id, userId: string): Folder
  {
    Folder(id, userId, "Drafts", "drafts", None, None, None, 0, true)
  }

  /** A fresh `folders` serial: larger than every folder id in the table. */
  function NextFolderId(folders: seq<Folder>): (r: Id)
    ensures forall f :: f in folders ==> f.folderId < r
  {
    if folders == [] then 1
    else
      var rest := NextFolderId(folders[1..]);
      if folders[0].folderId < rest then rest else folders[0].folderId + 1
  }

  // ---------------------------------------------------------------------
  // Sent messages
  // ---------------------------------------------------------------------

  /**
   * The fields of a send request the store handler reads besides the body
   * columns: the recipient (absent is NULL), copies, the reply flags and
   * the client's message id ("" when absent).
   */
  datatype SendRequest = SendRequest(
    to: Option<string>,
    cc: string,
    bcc: string,
    isReply: bool,
    inReplyTo: string,
    messageId: string)

  /** The stored body columns: the prepared content with the request's copies; no `in_reply_to` is written. */
  function SentContent(req: SendRequest, prepared: Content): Content
  {
    prepared.(cc := Some(req.cc), bcc := Some(req.bcc), inReplyTo := None)
  }

  /** The row the store handler inserts: in the Sent folder by id, with no display name, unread, not a draft. */
  function SentRow(id: Id, u: User, sentId: Id, threadId: string, messageId: string, req: SendRequest, c: Content): (r: Message)
    ensures !r.isDraft && !r.isRead && r.userId == u.id && r.threadId == threadId
    ensures r.folderId == Some(sentId) && r.folder.None?
    ensures BatchOrigin(r.messageType) == Inbox && RestoreOrigin(r.messageType, r.fromEmail, u.email) == Sent
  {
    Message(id, u.id, threadId, messageId, None, Some(sentId), Some("Sent"), u.email, req.to,
            false, false, false, c)
  }

  /**
   * The thread of a new sent message: a reply joins the thread of the
   * caller's first copy of the message it answers, when that copy has a
   * thread; everything else starts the fresh thread.
   */
  function ReplyThread(rows: seq<Message>, req: SendRequest, userId: string, newThread: string): (r: string)
    ensures newThread != [] ==> r != []
    ensures r != newThread ==>
              req.isReply && req.inReplyTo != []
              && exists m :: m in rows && Matches(MessageOfUser(req.inReplyTo, userId), m) && m.threadId == r
  {
    if req.isReply && req.inReplyTo != [] then
      var s := Selected(rows, MessageOfUser(req.inReplyTo, userId));
      if s != [] && s[0].threadId != [] then
        assert s[0] in s;
        s[0].threadId
      else newThread
    else newThread
  }

  // ---------------------------------------------------------------------
  // Response shapes
  // ---------------------------------------------------------------------

  /** One `resultsByMessage` entry: the row id and thread of a moved message. */
  datatype MessageRef = MessageRef(rowId: Id, threadId: string)

  /**
   * `resultsByMessage`, built by `reduce` over the returned rows: every
   * returned message is listed, each entry comes from a returned row with
   * that message id, and a later row overwrites an earlier one.
   */
  function ByMessage(rows: seq<Message>): (r: map<string, MessageRef>)
    ensures forall m :: m in rows ==> m.messageId in r
    ensures forall x :: x in r ==> exists m :: m in rows && m.messageId == x && r[x] == MessageRef(m.id, m.threadId)
    ensures rows != [] ==> r[rows[|rows| - 1].messageId] == MessageRef(rows[|rows| - 1].id, rows[|rows| - 1].threadId)
  {
    if rows == [] then map[]
    else
      var prefix := rows[..|rows| - 1];
      var last := rows[|rows| - 1];
      assert rows == prefix + [last];
      ByMessage(prefix)[last.messageId := MessageRef(last.id, last.threadId)]
  }

  /** One entry of a message restore's `results`. */
  datatype MessageRow = MessageRow(messageId: string, rowId: Id, threadId: string)

  function MessageRows(rows: seq<Message>): (r: seq<MessageRow>)
    ensures |r| == |rows|
    ensures forall i :: 0 <= i < |rows| ==> r[i] == MessageRow(rows[i].messageId, rows[i].id, rows[i].threadId)
  {
    if rows == [] then [] else [MessageRow(rows[0].messageId, rows[0].id, rows[0].threadId)] + MessageRows(rows[1..])
  }

  /** `threadIds.filter(id => !isValidUUID(id))` with the version-4 pattern. */
  function InvalidUuids(ids: seq<string>): (r: seq<string>)
    ensures forall x :: x in r <==> x in ids && !IsUuid(x, VersionFour)
  {
    if ids == [] then []
    else (if IsUuid(ids[0], VersionFour) then [] else [ids[0]]) + InvalidUuids(ids[1..])
  }
}
